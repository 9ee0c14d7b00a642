/** The error list: one page drawn from two newest-first sources. */
module ErrorPage {
  import opened StableSort

  datatype Origin = ErrorLog | FailedEditJob

  datatype Entry = Entry(id: string, timestamp: int, origin: Origin)

  // Sorting newest first is sorting by the negated time; entries of one time keep their order.
  function Age(e: Entry): real { -(e.timestamp as real) }

  function NewestFirst(es: seq<Entry>): seq<Entry> {
    Sort(Age, es)
  }

  ghost predicate IsNewestFirst(es: seq<Entry>) {
    forall i, j :: 0 <= i < j < |es| ==> es[i].timestamp >= es[j].timestamp
  }

  function Take(s: seq<Entry>, n: nat): seq<Entry> {
    if n < |s| then s[..n] else s
  }

  function Drop(s: seq<Entry>, n: nat): seq<Entry> {
    if n < |s| then s[n..] else []
  }

  // Two newest-first lists interleaved, the first one's entries before the second's at equal times.
  function Merge(a: seq<Entry>, b: seq<Entry>): seq<Entry> {
    if a == [] then b
    else if b == [] then a
    else if a[0].timestamp >= b[0].timestamp then [a[0]] + Merge(a[1..], b)
    else [b[0]] + Merge(a, b[1..])
  }

  function PageOf(logs: seq<Entry>, jobs: seq<Entry>, limit: nat, offset: nat): seq<Entry> {
    Take(NewestFirst(Take(Drop(logs, offset), limit) + Take(Drop(jobs, offset), limit)), limit)
  }

  // Each source is given as its query orders it; the counts are of everything that matched.
  method GetErrors(logs: seq<Entry>, jobs: seq<Entry>, limit: nat, offset: nat)
    returns (total: nat, errors: seq<Entry>, sourceCounts: map<Origin, nat>)
    ensures total == |logs| + |jobs|
    ensures errors == PageOf(logs, jobs, limit, offset)
    ensures sourceCounts.Keys == (if logs != [] then {ErrorLog} else {}) + (if jobs != [] then {FailedEditJob} else {})
    ensures ErrorLog in sourceCounts ==> sourceCounts[ErrorLog] == |logs|
    ensures FailedEditJob in sourceCounts ==> sourceCounts[FailedEditJob] == |jobs|
  {
    total := |logs| + |jobs|;
    var entries := Take(Drop(logs, offset), limit);
    entries := entries + Take(Drop(jobs, offset), limit);
    entries := NewestFirst(entries);
    sourceCounts := map[];
    if |logs| > 0 {
      sourceCounts := sourceCounts[ErrorLog := |logs|];
    }
    if |jobs| > 0 {
      sourceCounts := sourceCounts[FailedEditJob := |jobs|];
    }
    errors := Take(entries, limit);
  }

  // ------------------------------------------------ sorting two sorted lists is merging them

  // Which list the next entry comes from.
  lemma MergeFirst(a: seq<Entry>, b: seq<Entry>)
    requires a != [] && (b != [] ==> a[0].timestamp >= b[0].timestamp)
    ensures Merge(a, b) == [a[0]] + Merge(a[1..], b)
  {
    if b == [] {
      assert a == [a[0]] + a[1..];
    }
  }

  lemma MergeSecond(a: seq<Entry>, b: seq<Entry>)
    requires b != [] && (a != [] ==> a[0].timestamp < b[0].timestamp)
    ensures Merge(a, b) == [b[0]] + Merge(a, b[1..])
  {
    if a == [] {
      assert b == [b[0]] + b[1..];
    }
  }

  lemma {:induction false} InsertIntoMerge(x: Entry, a: seq<Entry>, b: seq<Entry>)
    requires IsNewestFirst([x] + a)
    ensures Insert(Age, x, Merge(a, b)) == Merge([x] + a, b)
    decreases |b|
  {
    var xa := [x] + a;
    assert xa[0] == x && xa[1..] == a;
    assert a != [] ==> xa[1] == a[0] && xa[0].timestamp >= xa[1].timestamp;
    if b != [] && x.timestamp < b[0].timestamp {
      hide Merge, IsNewestFirst;
      InsertIntoMerge(x, a, b[1..]);
      MergeSecond(a, b);
      MergeSecond(xa, b);
      var m := Merge(a, b[1..]);
      assert ([b[0]] + m)[1..] == m;
    } else {
      assert Merge(a, b) != [] ==> Merge(a, b)[0].timestamp <= x.timestamp;
      MergeFirst(xa, b);
    }
  }

  lemma {:induction false} SortedStays(b: seq<Entry>)
    requires IsNewestFirst(b)
    ensures NewestFirst(b) == b
  {
    if b != [] {
      SortedStays(b[1..]);
      assert b == [b[0]] + b[1..];
    }
  }

  lemma {:induction false} SortIsMerge(a: seq<Entry>, b: seq<Entry>)
    requires IsNewestFirst(a) && IsNewestFirst(b)
    ensures NewestFirst(a + b) == Merge(a, b)
    decreases |a|
  {
    if a == [] {
      assert a + b == b;
      SortedStays(b);
    } else {
      assert (a + b)[1..] == a[1..] + b && [a[0]] + a[1..] == a;
      SortIsMerge(a[1..], b);
      InsertIntoMerge(a[0], a[1..], b);
    }
  }

  // ------------------------------------------------ the first page

  lemma TakeTail(s: seq<Entry>, n: nat)
    requires s != [] && n > 0
    ensures Take(s, n) != [] && Take(s, n)[0] == s[0] && Take(s, n)[1..] == Take(s[1..], n - 1)
  {
  }

  lemma OneListLeft(a: seq<Entry>, b: seq<Entry>, m: nat, n: nat, k: nat)
    requires k <= m && k <= n && (k == 0 || a == [] || b == [])
    ensures Take(Merge(Take(a, m), Take(b, n)), k) == Take(Merge(a, b), k)
  {
  }

  // The first k of a merge need only the first k of each list.
  lemma {:induction false} MergeOfTakes(a: seq<Entry>, b: seq<Entry>, m: nat, n: nat, k: nat)
    requires k <= m && k <= n
    ensures Take(Merge(Take(a, m), Take(b, n)), k) == Take(Merge(a, b), k)
    decreases |a| + |b|, k
  {
    hide Merge, Take;
    if k == 0 || a == [] || b == [] {
      OneListLeft(a, b, m, n, k);
    } else {
      var ta, tb := Take(a, m), Take(b, n);
      TakeTail(a, m);
      TakeTail(b, n);
      if a[0].timestamp >= b[0].timestamp {
        MergeOfTakes(a[1..], b, m - 1, n, k - 1);
        MergeFirst(ta, tb);
        MergeFirst(a, b);
        TakeCons(a[0], Merge(ta[1..], tb), k);
        TakeCons(a[0], Merge(a[1..], b), k);
      } else {
        MergeOfTakes(a, b[1..], m, n - 1, k - 1);
        MergeSecond(ta, tb);
        MergeSecond(a, b);
        TakeCons(b[0], Merge(ta, tb[1..]), k);
        TakeCons(b[0], Merge(a, b[1..]), k);
      }
    }
  }

  lemma TakeCons(x: Entry, s: seq<Entry>, k: nat)
    requires k > 0
    ensures Take([x] + s, k) == [x] + Take(s, k - 1)
  {
  }

  // The first page is the true one: the newest entries of both sources together.
  lemma FirstPageIsTopK(logs: seq<Entry>, jobs: seq<Entry>, limit: nat)
    requires IsNewestFirst(logs) && IsNewestFirst(jobs)
    ensures PageOf(logs, jobs, limit, 0) == Take(NewestFirst(logs + jobs), limit)
    ensures IsNewestFirst(NewestFirst(logs + jobs)) && multiset(NewestFirst(logs + jobs)) == multiset(logs + jobs)
  {
    assert Drop(logs, 0) == logs && Drop(jobs, 0) == jobs;
    SortIsMerge(logs, jobs);
    SortIsMerge(Take(logs, limit), Take(jobs, limit));
    MergeOfTakes(logs, jobs, limit, limit, limit);
    SortIsStable(Age, logs + jobs);
    var s := NewestFirst(logs + jobs);
    forall i, j | 0 <= i < j < |s| ensures s[i].timestamp >= s[j].timestamp {
      assert Age(s[i]) <= Age(s[j]);
    }
  }
}
