/** Publishing: what its walks leave, and exactly when it keeps the lineage. */
module LineagePublish {
  import opened Basics
  import opened Lineage
  import opened LineageInvariant
  import opened LineageRuns

  // ------------------------------------------------ what walks leave alone

  // A pointer stays, or is null because its target was deleted.
  ghost predicate PointerKept(was: Option<Id>, now: Option<Id>, left: Songs) {
    now == was || (now.None? && was.value !in left)
  }

  // Only songs go, and pointers to the songs that went.
  ghost predicate Shrunk(db: Db, d: Db) {
    && d.tasks == db.tasks && d.users == db.users && d.lib == db.lib
    && (forall x :: x in d.songs ==>
          && x in db.songs
          && PointerKept(db.songs[x].parent, d.songs[x].parent, d.songs)
          && PointerKept(db.songs[x].root, d.songs[x].root, d.songs)
          && d.songs[x].owner == db.songs[x].owner)
  }

  lemma DeleteShrinks(db: Db, id: Id)
    requires NoLibraryRefs(db, id)
    ensures Shrunk(db, DeleteSong(db, id))
  {
    assert DeleteSong(db, id).lib == db.lib;
  }

  lemma ShrinkMore(a: Db, b: Db, c: Db)
    requires Shrunk(a, b) && Shrunk(b, c)
    ensures Shrunk(a, c)
  {
  }

  lemma {:induction false} WalkShrinks(db: Db, cur: Option<Id>, stop: Id, exclude: Option<Id>)
    requires Descending(db)
    ensures Shrunk(db, Walk(db, cur, stop, exclude))
    decreases if cur.Some? then cur.value + 1 else 0
  {
    if cur.Some? && cur.value != stop && cur.value in db.songs {
      var next := db.songs[cur.value].parent;
      if Collectable(db, cur.value, exclude) {
        var d := DeleteSong(db, cur.value);
        DeleteKeepsDescending(db, cur.value);
        DeleteShrinks(db, cur.value);
        hide Shrunk, DeleteSong;
        WalkShrinks(d, next, stop, exclude);
        ShrinkMore(db, d, Walk(d, next, stop, exclude));
      } else {
        hide Shrunk;
        WalkShrinks(db, next, stop, exclude);
      }
    }
  }

  lemma {:induction false} PublishWalksShrink(db: Db, songs: seq<Id>)
    requires Descending(db)
    ensures Shrunk(db, PublishWalks(db, songs))
    decreases |songs|
  {
    if songs != [] {
      var s := songs[0];
      if s in db.songs && db.songs[s].parent.Some? && db.songs[s].root.Some? {
        WalkShrinks(db, db.songs[s].parent, db.songs[s].root.value, Some(s));
      }
      var d := PublishWalk(db, s);
      assert Shrunk(db, d);
      hide Shrunk, PublishWalk;
      PublishWalksShrink(d, songs[1..]);
      ShrinkMore(db, d, PublishWalks(d, songs[1..]));
    }
  }

  // No root is deleted, so every song left keeps its root pointer.
  ghost predicate RootsKept(db: Db, d: Db) {
    forall x :: x in d.songs ==> x in db.songs && d.songs[x].root == db.songs[x].root
  }

  lemma {:induction false} WalkKeepsRoots(db: Db, loose: set<Id>, cur: Option<Id>, root: Id, song: Id)
    requires InvBut(db, loose) && song in loose && BelowRoot(db.songs, cur, root)
    ensures Descending(db) && RootsKept(db, Walk(db, cur, root, Some(song)))
    decreases if cur.Some? then cur.value + 1 else 0
  {
    InvIsDescending(db, loose);
    if cur.Some? && cur.value != root && cur.value in db.songs {
      var next := db.songs[cur.value].parent;
      PublishStepKeepsInv(db, loose, cur.value, root, song);
      hide InvBut, BelowRoot;
      if Collectable(db, cur.value, Some(song)) {
        WalkKeepsRoots(DeleteSong(db, cur.value), loose, next, root, song);
      } else {
        WalkKeepsRoots(db, loose, next, root, song);
      }
    }
  }

  lemma {:induction false} PublishWalksKeepRoots(db: Db, loose: set<Id>, songs: seq<Id>)
    requires InvBut(db, loose) && forall s :: s in songs ==> s in loose
    ensures Descending(db) && RootsKept(db, PublishWalks(db, songs))
    decreases |songs|
  {
    InvIsDescending(db, loose);
    if songs != [] {
      var s := songs[0];
      if s in db.songs && db.songs[s].parent.Some? && db.songs[s].root.Some? {
        ParentBelowRoot(db.songs, loose, s, db.songs[s].root.value);
        WalkKeepsRoots(db, loose, db.songs[s].parent, db.songs[s].root.value, s);
        PublishWalkKeepsInv(db, loose, db.songs[s].parent, db.songs[s].root.value, s);
      }
      hide InvBut;
      PublishWalksKeepRoots(PublishWalk(db, s), loose, songs[1..]);
    }
  }

  // ------------------------------------------------ the update

  ghost predicate BeingEdited(tasks: Tasks, t: Id) {
    exists j :: j in tasks && tasks[j].InFlight() && tasks[j].snap.source == t
  }

  ghost predicate HasOtherChild(songs: Songs, t: Id, ids: set<Id>) {
    exists x :: x in songs && songs[x].parent == Some(t) && x !in ids
  }

  // No unpublished song hangs below a published version, and no task in flight edits one.
  ghost predicate UpdateSafe(db: Db, ids: set<Id>) {
    forall t :: t in ids && t in db.songs && db.songs[t].root.Some? ==>
      !HasOtherChild(db.songs, t, ids) && !BeingEdited(db.tasks, t)
  }

  lemma SafeUpdateKeepsInv(db: Db, ids: set<Id>)
    requires InvBut(db, ids) && UpdateSafe(db, ids)
    ensures Inv(PublishUpdate(db, ids))
  {
    var songs := PublishUpdate(db, ids).songs;
    forall x | x in songs
      ensures Rooted(songs, x) && (songs[x].root.Some? ==> songs[x].parent.Some?)
    {
      assert Rooted(db.songs, x);
      if x !in ids && db.songs[x].parent.Some? {
        var p := db.songs[x].parent.value;
        assert Rooted(db.songs, p);
        assert p in ids ==> HasOtherChild(db.songs, p, ids);
      }
    }
    forall j | j in db.tasks && db.tasks[j].InFlight() ensures SnapshotAgrees(songs, db.tasks[j].snap) {
      assert SnapshotAgrees(db.songs, db.tasks[j].snap);
      assert BeingEdited(db.tasks, db.tasks[j].snap.source);
    }
    PointersKeepInv(db, ids, songs);
  }

  lemma UnsafeUpdateBreaks(db: Db, ids: set<Id>, t: Id)
    requires InvBut(db, ids) && t in ids && t in db.songs && db.songs[t].root.Some?
    requires HasOtherChild(db.songs, t, ids) || BeingEdited(db.tasks, t)
    ensures !Inv(PublishUpdate(db, ids))
  {
    var d := PublishUpdate(db, ids);
    assert Rooted(db.songs, t);
    if HasOtherChild(db.songs, t, ids) {
      var x :| x in db.songs && db.songs[x].parent == Some(t) && x !in ids;
      assert Rooted(db.songs, x);
      assert !Rooted(d.songs, x);
    } else {
      var j :| j in db.tasks && db.tasks[j].InFlight() && db.tasks[j].snap.source == t;
      assert SnapshotAgrees(db.songs, db.tasks[j].snap);
      assert !SnapshotAgrees(d.songs, d.tasks[j].snap);
    }
  }

  // Once the walks are done, the update keeps the invariant if and only if it is safe.
  lemma UpdateKeepsInvIffSafe(db: Db, ids: set<Id>)
    requires InvBut(db, ids)
    ensures Inv(PublishUpdate(db, ids)) <==> UpdateSafe(db, ids)
  {
    hide InvBut, PublishUpdate, HasOtherChild, BeingEdited;
    if UpdateSafe(db, ids) {
      SafeUpdateKeepsInv(db, ids);
    } else {
      var t :| t in ids && t in db.songs && db.songs[t].root.Some? &&
               (HasOtherChild(db.songs, t, ids) || BeingEdited(db.tasks, t));
      UnsafeUpdateBreaks(db, ids, t);
    }
  }

  // ------------------------------------------------ publishing, on the database before it

  // Nothing refers to the song: no library, and no child but the excluded one and those gone.
  ghost predicate Unreferenced(db: Db, gone: set<Id>, id: Id, exclude: Option<Id>) {
    && NoLibraryRefs(db, id)
    && forall x :: x in db.songs && x !in gone && db.songs[x].parent == Some(id) ==> exclude == Some(x)
  }

  // What is gone after one walk, read off the rows as they were before any walk.
  ghost function GoneAfterWalk(db: Db, gone: set<Id>, cur: Option<Id>, stop: Id, exclude: Option<Id>): set<Id>
    requires Descending(db)
    decreases if cur.Some? then cur.value + 1 else 0
  {
    if cur.None? || cur.value == stop || cur.value !in db.songs || cur.value in gone then gone
    else
      var more := if Unreferenced(db, gone, cur.value, exclude) then gone + {cur.value} else gone;
      GoneAfterWalk(db, more, db.songs[cur.value].parent, stop, exclude)
  }

  // A song has a walk of its own while it, its parent and its root are there.
  ghost predicate Walks(db: Db, gone: set<Id>, song: Id) {
    && song in db.songs && song !in gone
    && db.songs[song].parent.Some? && db.songs[song].parent.value !in gone
    && db.songs[song].root.Some? && db.songs[song].root.value !in gone
  }

  ghost function GoneAfterWalks(db: Db, gone: set<Id>, songs: seq<Id>): set<Id>
    requires Descending(db)
    decreases |songs|
  {
    if songs == [] then gone
    else
      var s := songs[0];
      var more := if Walks(db, gone, s)
                  then GoneAfterWalk(db, gone, db.songs[s].parent, db.songs[s].root.value, Some(s))
                  else gone;
      GoneAfterWalks(db, more, songs[1..])
  }

  // The songs the walks collect.
  ghost function CollectedBy(db: Db, songs: seq<Id>): set<Id>
    requires Descending(db)
  {
    GoneAfterWalks(db, {}, songs)
  }

  function Spared(o: Option<Id>, gone: set<Id>): Option<Id> {
    if o.Some? && o.value in gone then None else o
  }

  // The rows without the songs that are gone, and without pointers at them.
  ghost predicate Without(db: Db, d: Db, gone: set<Id>) {
    && d.songs.Keys == db.songs.Keys - gone && d.lib == db.lib
    && forall x :: x in d.songs ==>
         d.songs[x] == Song(Spared(db.songs[x].parent, gone), Spared(db.songs[x].root, gone), db.songs[x].owner)
  }

  lemma WithoutOneMore(db: Db, d: Db, gone: set<Id>, id: Id)
    requires Without(db, d, gone) && id in d.songs && NoLibraryRefs(d, id)
    ensures Without(db, DeleteSong(d, id), gone + {id})
  {
    assert DeleteSong(d, id).lib == d.lib;
  }

  lemma CollectableWithout(db: Db, d: Db, gone: set<Id>, id: Id, exclude: Option<Id>)
    requires Without(db, d, gone) && id in d.songs
    ensures Collectable(d, id, exclude) <==> Unreferenced(db, gone, id, exclude)
  {
    assert id !in gone;
    forall x | x in d.songs ensures d.songs[x].parent == Some(id) <==> db.songs[x].parent == Some(id) {
    }
  }

  lemma {:induction false} WalkWithout(db: Db, d: Db, gone: set<Id>, cur: Option<Id>, stop: Id, exclude: Option<Id>)
    requires Descending(db) && Descending(d) && Without(db, d, gone)
    ensures Without(db, Walk(d, Spared(cur, gone), stop, exclude), GoneAfterWalk(db, gone, cur, stop, exclude))
    decreases if cur.Some? then cur.value + 1 else 0
  {
    if cur.Some? && cur.value != stop && cur.value in d.songs {
      var c := cur.value;
      var next := db.songs[c].parent;
      assert c !in gone && d.songs[c].parent == Spared(next, gone);
      CollectableWithout(db, d, gone, c, exclude);
      if Collectable(d, c, exclude) {
        WithoutOneMore(db, d, gone, c);
        DeleteKeepsDescending(d, c);
        assert Spared(next, gone + {c}) == Spared(next, gone);
        hide Without, Unreferenced, Collectable, DeleteSong;
        WalkWithout(db, DeleteSong(d, c), gone + {c}, next, stop, exclude);
      } else {
        hide Without, Unreferenced, Collectable;
        WalkWithout(db, d, gone, next, stop, exclude);
      }
    }
  }

  lemma OneWalkWithout(db: Db, d: Db, gone: set<Id>, s: Id)
    requires Descending(db) && Descending(d) && Without(db, d, gone)
    ensures !Walks(db, gone, s) ==> PublishWalk(d, s) == d
    ensures Walks(db, gone, s) ==>
              var more := GoneAfterWalk(db, gone, db.songs[s].parent, db.songs[s].root.value, Some(s));
              Without(db, PublishWalk(d, s), more)
  {
    if Walks(db, gone, s) {
      WalkWithout(db, d, gone, db.songs[s].parent, db.songs[s].root.value, Some(s));
    }
  }

  lemma {:induction false} WalksWithout(db: Db, d: Db, gone: set<Id>, songs: seq<Id>)
    requires Descending(db) && Descending(d) && Without(db, d, gone)
    ensures Without(db, PublishWalks(d, songs), GoneAfterWalks(db, gone, songs))
    decreases |songs|
  {
    if songs != [] {
      var s := songs[0];
      OneWalkWithout(db, d, gone, s);
      hide Without, Walks, PublishWalk, GoneAfterWalk;
      var more := if Walks(db, gone, s)
                  then GoneAfterWalk(db, gone, db.songs[s].parent, db.songs[s].root.value, Some(s))
                  else gone;
      WalksWithout(db, PublishWalk(d, s), more, songs[1..]);
    }
  }

  // What is gone, as read off the rows, is what the walks delete one after the other.
  lemma CollectedByIs(db: Db, songs: seq<Id>)
    requires Descending(db)
    ensures PublishWalks(db, songs).songs.Keys == db.songs.Keys - CollectedBy(db, songs)
  {
    WalksWithout(db, db, {}, songs);
  }

  // Of the songs to publish that are versions and are not themselves collected: each of their
  // children is published too or collected, and no task in flight edits them.
  ghost predicate MayPublish(db: Db, songs: seq<Id>)
    requires Descending(db)
  {
    forall t :: t in songs && t in db.songs && t !in CollectedBy(db, songs) && db.songs[t].root.Some? ==>
      && (forall x :: x in db.songs && db.songs[x].parent == Some(t) ==> x in songs || x in CollectedBy(db, songs))
      && !BeingEdited(db.tasks, t)
  }

  lemma ChildrenAfterWalks(db: Db, w: Db, t: Id, ids: set<Id>)
    requires Shrunk(db, w) && t in w.songs
    ensures HasOtherChild(w.songs, t, ids) <==>
            exists x :: x in db.songs && db.songs[x].parent == Some(t) && x !in ids && x in w.songs
  {
    forall x | x in w.songs ensures w.songs[x].parent == Some(t) <==> db.songs[x].parent == Some(t) {
      assert PointerKept(db.songs[x].parent, w.songs[x].parent, w.songs);
    }
  }

  lemma SafeAfterWalksIff(db: Db, songs: seq<Id>)
    requires Descending(db) && Shrunk(db, PublishWalks(db, songs)) && RootsKept(db, PublishWalks(db, songs))
    ensures UpdateSafe(PublishWalks(db, songs), Elements(songs)) <==> MayPublish(db, songs)
  {
    var w, ids := PublishWalks(db, songs), Elements(songs);
    forall t | t in w.songs
      ensures HasOtherChild(w.songs, t, ids) <==>
              exists x :: x in db.songs && db.songs[x].parent == Some(t) && x !in ids && x in w.songs
    {
      ChildrenAfterWalks(db, w, t, ids);
    }
    CollectedByIs(db, songs);
    hide Shrunk, HasOtherChild, BeingEdited, PublishWalks, CollectedBy;
    assert forall t :: t in w.songs <==> t in db.songs && t !in CollectedBy(db, songs);
  }

  // Publishing any songs keeps the lineage intact if and only if the guard holds.
  lemma PublishIff(db: Db, songs: seq<Id>)
    requires Inv(db)
    ensures Descending(db) && (Inv(Publish(db, songs)) <==> MayPublish(db, songs))
  {
    var ids := Elements(songs);
    InvIsDescending(db, {});
    LoosenInv(db, ids);
    PublishWalksKeepInv(db, ids, songs);
    PublishWalksKeepRoots(db, ids, songs);
    PublishWalksShrink(db, songs);
    hide InvBut, UpdateSafe, MayPublish, RootsKept, Shrunk;
    SafeAfterWalksIff(db, songs);
    UpdateKeepsInvIffSafe(PublishWalks(db, songs), ids);
  }

  // ------------------------------------------------ publishing one song

  // The walk from the parent of a version stays below the version and its children.
  lemma {:induction false} WalkStaysBelow(db: Db, cur: Option<Id>, stop: Id, exclude: Option<Id>, x: Id)
    requires Descending(db) && (cur.Some? ==> cur.value < x)
    ensures x in Walk(db, cur, stop, exclude).songs <==> x in db.songs
    decreases if cur.Some? then cur.value + 1 else 0
  {
    if cur.Some? && cur.value != stop && cur.value in db.songs {
      var next := db.songs[cur.value].parent;
      DeleteKeepsDescending(db, cur.value);
      WalkStaysBelow(if Collectable(db, cur.value, exclude) then DeleteSong(db, cur.value) else db, next, stop,
          exclude, x);
    }
  }

  lemma PublishWalkSpares(db: Db, song: Id, x: Id)
    requires Descending(db) && song in db.songs && x in db.songs && song <= x
    ensures x in PublishWalk(db, song).songs
  {
    if db.songs[song].parent.Some? && db.songs[song].root.Some? {
      WalkStaysBelow(db, db.songs[song].parent, db.songs[song].root.value, Some(song), x);
    }
  }

  // Publishing one song collects neither it nor any song below it.
  lemma OneCollectsAbove(db: Db, song: Id, x: Id)
    requires Descending(db) && song in db.songs && x in db.songs && song <= x
    ensures x !in CollectedBy(db, [song])
  {
    CollectedByIs(db, [song]);
    assert PublishWalks(db, [song]) == PublishWalks(PublishWalk(db, song), []) == PublishWalk(db, song) by {
      assert [song][1..] == [];
    }
    hide CollectedBy;
    PublishWalkSpares(db, song, x);
  }

  // For one song: it is a root already, or it has no edited versions and is not being edited.
  lemma PublishOneIff(db: Db, song: Id)
    requires Inv(db) && song in db.songs
    ensures Descending(db) &&
            (Inv(Publish(db, [song])) <==>
             db.songs[song].root.None? || (NoChildren(db, song, None) && !BeingEdited(db.tasks, song)))
  {
    PublishIff(db, [song]);
    hide Inv, Publish, CollectedBy, BeingEdited;
    OneCollectsAbove(db, song, song);
    forall x | x in db.songs && db.songs[x].parent == Some(song)
      ensures x !in CollectedBy(db, [song]) && x != song
    {
      OneCollectsAbove(db, song, x);
    }
  }

  // A root, a version and a version of that, all in one user's library.
  function ThreeInARow(): Db {
    Db(map[0 := Song(None, None, None), 1 := Song(Some(0), Some(0), Some(7)), 2 := Song(Some(1), Some(0), Some(7))],
       {7}, {(7, 0), (7, 1), (7, 2)}, {0, 1, 2}, map[], map[], 3, 8)
  }

  lemma ThreeAreSound()
    ensures Inv(ThreeInARow())
  {
    var db := ThreeInARow();
    assert Rooted(db.songs, 0) && Rooted(db.songs, 1) && Rooted(db.songs, 2);
    hide Rooted;
    assert forall f :: f in db.files <==> FileWanted(db.songs, db.tasks, f);
  }

  // The smallest unsafe publish: the middle one goes, and the newest is stranded below it.
  lemma PublishedParentStrandsChild()
    ensures Inv(ThreeInARow()) && Descending(ThreeInARow()) && !Inv(Publish(ThreeInARow(), [1]))
  {
    var db := ThreeInARow();
    ThreeAreSound();
    assert db.songs[2].parent == Some(1);
    hide Inv, Publish, Descending;
    PublishOneIff(db, 1);
  }
}
