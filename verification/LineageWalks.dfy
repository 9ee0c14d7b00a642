/** What a walk up the chain collects, and what a restore leaves. */
module LineageWalks {
  import opened Basics
  import opened Lineage
  import opened LineageInvariant
  import opened LineageRuns
  import opened LineagePublish

  // A song with a child that the exclusion does not cover stays, and so do all above it.
  lemma {:induction false} WalkStopsAtChild(db: Db, cur: Option<Id>, stop: Id, exclude: Option<Id>, child: Id)
    requires Descending(db) && child in db.songs && db.songs[child].parent == cur && exclude != Some(child)
    requires exclude.Some? ==> child < exclude.value
    ensures Walk(db, cur, stop, exclude) == db
    decreases if cur.Some? then cur.value + 1 else 0
  {
    if cur.Some? && cur.value != stop && cur.value in db.songs {
      assert !Collectable(db, cur.value, exclude);
      WalkStopsAtChild(db, db.songs[cur.value].parent, stop, exclude, cur.value);
    }
  }

  // How many songs, from the bottom, a walk collects.
  ghost function Collected(db: Db, cur: Option<Id>, stop: Id, exclude: Option<Id>): nat
    requires Descending(db)
    decreases if cur.Some? then cur.value + 1 else 0
  {
    if cur.None? || cur.value == stop || cur.value !in db.songs || !Collectable(db, cur.value, exclude) then 0
    else
      DeleteKeepsDescending(db, cur.value);
      1 + Collected(DeleteSong(db, cur.value), db.songs[cur.value].parent, stop, exclude)
  }

  lemma {:induction false} ChainElement(db: Db, cur: Option<Id>, stop: Id, i: nat)
    requires Descending(db) && i < |Chain(db, cur, stop)|
    ensures var c := Chain(db, cur, stop);
            && c[i] in db.songs && c[i] != stop && cur.Some? && c[i] <= cur.value
            && (i == 0 ==> Some(c[i]) == cur)
            && (i > 0 ==> c[i - 1] in db.songs && db.songs[c[i - 1]].parent == Some(c[i]))
    decreases if cur.Some? then cur.value + 1 else 0
  {
    var next := db.songs[cur.value].parent;
    if i > 0 {
      ChainElement(db, next, stop, i - 1);
      if i > 1 {
        ChainElement(db, next, stop, i - 2);
      }
    }
  }

  lemma {:induction false} ChainAfterDelete(db: Db, gone: Id, cur: Option<Id>, stop: Id)
    requires Descending(db) && (cur.Some? ==> cur.value < gone)
    ensures Descending(DeleteSong(db, gone)) && Chain(DeleteSong(db, gone), cur, stop) == Chain(db, cur, stop)
    decreases if cur.Some? then cur.value + 1 else 0
  {
    DeleteKeepsDescending(db, gone);
    if cur.Some? && cur.value in db.songs && cur.value != stop {
      ChainAfterDelete(db, gone, db.songs[cur.value].parent, stop);
    }
  }

  // Nothing refers to the song at i of the chain but the excluded child and the song before it.
  ghost predicate OnlyReference(db: Db, chain: seq<Id>, i: nat, exclude: Option<Id>)
    requires i < |chain|
  {
    && NoLibraryRefs(db, chain[i])
    && forall x :: x in db.songs && db.songs[x].parent == Some(chain[i]) ==>
         exclude == Some(x) || (i > 0 && x == chain[i - 1])
  }

  // What a walk does, against the chain it walks.
  ghost predicate CollectsPrefix(db: Db, cur: Option<Id>, stop: Id, exclude: Option<Id>)
    requires Descending(db)
  {
    var chain, n := Chain(db, cur, stop), Collected(db, cur, stop, exclude);
    && n <= |chain|
    && Walk(db, cur, stop, exclude).songs.Keys == db.songs.Keys - Elements(chain[..n])
    && forall i :: 0 <= i < n ==> OnlyReference(db, chain, i, exclude)
  }

  // The bottom song goes, and the rest is as the walk from its parent has it.
  lemma WalkOneMore(db: Db, cur: Id, stop: Id, exclude: Option<Id>)
    requires Descending(db) && cur in db.songs && cur != stop && Collectable(db, cur, exclude)
    ensures var d, next := DeleteSong(db, cur), db.songs[cur].parent;
            && Descending(d) && d.songs.Keys == db.songs.Keys - {cur}
            && Chain(db, Some(cur), stop) == [cur] + Chain(d, next, stop)
            && Collected(db, Some(cur), stop, exclude) == 1 + Collected(d, next, stop, exclude)
            && Walk(db, Some(cur), stop, exclude) == Walk(d, next, stop, exclude)
  {
    DeleteKeepsDescending(db, cur);
    ChainAfterDelete(db, cur, db.songs[cur].parent, stop);
  }

  lemma TakenFromBottom(cur: Id, rest: seq<Id>, n: nat)
    requires n <= |rest|
    ensures Elements(([cur] + rest)[..n + 1]) == {cur} + Elements(rest[..n])
  {
    assert ([cur] + rest)[..n + 1] == [cur] + rest[..n];
  }

  lemma PrefixOneMore(db: Db, cur: Id, stop: Id, exclude: Option<Id>)
    requires Descending(db) && cur in db.songs && cur != stop && Collectable(db, cur, exclude)
    requires Descending(DeleteSong(db, cur)) && CollectsPrefix(DeleteSong(db, cur), db.songs[cur].parent, stop, exclude)
    ensures CollectsPrefix(db, Some(cur), stop, exclude)
  {
    var d, next := DeleteSong(db, cur), db.songs[cur].parent;
    var chain, rest, n := Chain(db, Some(cur), stop), Chain(d, next, stop), Collected(d, next, stop, exclude);
    WalkOneMore(db, cur, stop, exclude);
    TakenFromBottom(cur, rest, n);
    assert OnlyReference(db, chain, 0, exclude);
    hide Walk, DeleteSong, Collectable, Chain, Collected, Descending, Elements, OnlyReference;
    forall i | 0 <= i < n + 1 ensures OnlyReference(db, chain, i, exclude) {
      if i > 0 {
        ReferenceBeforeDelete(db, cur, rest, i - 1, next, stop, exclude);
      }
    }
  }

  // A walk collects an unbroken stretch of the chain from its bottom, never the stop, and each
  // song collected was in no library and had no child but the excluded one and the one below it,
  // collected just before.
  lemma {:induction false} WalkCollectsPrefix(db: Db, cur: Option<Id>, stop: Id, exclude: Option<Id>)
    requires Descending(db) && (exclude.Some? && cur.Some? ==> cur.value < exclude.value)
    ensures CollectsPrefix(db, cur, stop, exclude) && stop !in Chain(db, cur, stop)
    decreases if cur.Some? then cur.value + 1 else 0
  {
    forall i | 0 <= i < |Chain(db, cur, stop)| ensures Chain(db, cur, stop)[i] != stop {
      ChainElement(db, cur, stop, i);
    }
    if cur.Some? && cur.value != stop && cur.value in db.songs && Collectable(db, cur.value, exclude) {
      hide CollectsPrefix, Chain, Collectable;
      DeleteKeepsDescending(db, cur.value);
      WalkCollectsPrefix(DeleteSong(db, cur.value), db.songs[cur.value].parent, stop, exclude);
      PrefixOneMore(db, cur.value, stop, exclude);
    } else {
      assert Chain(db, cur, stop)[..0] == [];
      if cur.Some? && cur.value != stop && cur.value in db.songs {
        WalkStopsAtChild(db, db.songs[cur.value].parent, stop, exclude, cur.value);
      }
    }
  }

  lemma ReferenceBeforeDelete(db: Db, gone: Id, rest: seq<Id>, i: nat, next: Option<Id>, stop: Id, exclude: Option<Id>)
    requires Descending(db) && gone in db.songs && db.songs[gone].parent == next
    requires Descending(DeleteSong(db, gone)) && rest == Chain(DeleteSong(db, gone), next, stop) && i < |rest|
    requires OnlyReference(DeleteSong(db, gone), rest, i, exclude)
    ensures OnlyReference(db, [gone] + rest, i + 1, exclude)
  {
    var d, chain := DeleteSong(db, gone), [gone] + rest;
    ChainElement(d, next, stop, i);
    forall x | x in db.songs && db.songs[x].parent == Some(chain[i + 1])
      ensures exclude == Some(x) || x == chain[i]
    {
      if x == gone && i > 0 {
        ChainElement(d, next, stop, 0);
        ChainStrictlyFalls(d, next, stop, i);
      } else if x != gone {
        assert x in d.songs && d.songs[x].parent == Some(rest[i]);
      }
    }
  }

  lemma {:induction false} ChainStrictlyFalls(db: Db, cur: Option<Id>, stop: Id, i: nat)
    requires Descending(db) && 0 < i < |Chain(db, cur, stop)|
    ensures Chain(db, cur, stop)[i] < Chain(db, cur, stop)[0]
  {
    var next := db.songs[cur.value].parent;
    ChainElement(db, next, stop, i - 1);
  }

  // Restoring swaps one library row for another and touches no other; it deletes neither the
  // target nor any surviving song's root.
  lemma RestoreIsSafe(db: Db, user: User, song: Id, target: Id)
    requires Inv(db) && user in db.users && song in db.songs && db.songs[song].owner == Some(user) && target in db.songs
    ensures Descending(db)
    ensures var d := Restore(db, user, song, target);
            && target in d.songs
            && d.lib == db.lib - {(user, song)} + {(user, target)}
            && (forall x :: x in d.songs && d.songs[x].root.Some? ==> d.songs[x].root.value in d.songs)
            && (forall x, e :: x in db.songs && x !in d.songs && e in db.lib && e.1 == x ==> e == (user, song))
  {
    InvIsDescending(db, {});
    RestoreKeepsInv(db, user, song, target);
    var s := RestoreSwap(db, user, song, target);
    var d := Restore(db, user, song, target);
    WalkCollectsPrefix(s, Some(song), target, None);
    WalkShrinks(s, Some(song), target, None);
    assert d.lib == s.lib;
    assert LibrarySound(d.users, d.songs, d.lib);
    forall x, e | x in db.songs && x !in d.songs && e in db.lib && e.1 == x ensures e == (user, song) {
      assert e != (user, song) ==> e in d.lib;
    }
    forall x | x in d.songs && d.songs[x].root.Some? ensures d.songs[x].root.value in d.songs {
      assert Rooted(d.songs, x);
    }
  }
}
