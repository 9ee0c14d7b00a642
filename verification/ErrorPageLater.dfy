/** Later error pages: offsetting each source on its own is right only while one source is read. */
module ErrorPageLater {
  import opened StableSort
  import opened ErrorPage

  ghost predicate AllFrom(es: seq<Entry>, origin: Origin) {
    forall i :: 0 <= i < |es| ==> es[i].origin == origin
  }

  ghost predicate NoRepeats(es: seq<Entry>) {
    forall i, j :: 0 <= i < j < |es| ==> es[i] != es[j]
  }

  // A source as its query returns it.
  ghost predicate SourceOf(es: seq<Entry>, origin: Origin) {
    IsNewestFirst(es) && AllFrom(es, origin) && NoRepeats(es)
  }

  // What page a reader of the merged list expects.
  function TruePage(logs: seq<Entry>, jobs: seq<Entry>, limit: nat, offset: nat): seq<Entry> {
    Take(Drop(NewestFirst(logs + jobs), offset), limit)
  }

  // How many of the first n merged entries come from the first list.
  function FromFirst(a: seq<Entry>, b: seq<Entry>, n: nat): (i: nat)
    ensures i <= n
    decreases n
  {
    if n == 0 || a == [] then 0
    else if b == [] then n
    else if a[0].timestamp >= b[0].timestamp then 1 + FromFirst(a[1..], b, n - 1)
    else FromFirst(a, b[1..], n - 1)
  }

  lemma DropOne(s: seq<Entry>, n: nat)
    requires s != [] && n > 0
    ensures Drop(s, n) == Drop(s[1..], n - 1)
  {
  }

  lemma DropCons(x: Entry, s: seq<Entry>, n: nat)
    requires n > 0
    ensures Drop([x] + s, n) == Drop(s, n - 1)
  {
  }

  lemma DropNothing(s: seq<Entry>)
    ensures Drop(s, 0) == s
  {
  }

  // Past n entries of a merge lie the merge of what is left of each list.
  lemma {:induction false} DropOfMerge(a: seq<Entry>, b: seq<Entry>, n: nat)
    ensures DropsApart(a, b, n)
    decreases n
  {
    hide DropsApart;
    if n == 0 || a == [] || b == [] {
      DropEnds(a, b, n);
    } else if a[0].timestamp >= b[0].timestamp {
      DropOfMerge(a[1..], b, n - 1);
      DropAfterFirst(a, b, n);
    } else {
      DropOfMerge(a, b[1..], n - 1);
      DropAfterSecond(a, b, n);
    }
  }

  ghost predicate DropsApart(a: seq<Entry>, b: seq<Entry>, n: nat) {
    Drop(Merge(a, b), n) == Merge(Drop(a, FromFirst(a, b, n)), Drop(b, n - FromFirst(a, b, n)))
  }

  lemma DropAfterFirst(a: seq<Entry>, b: seq<Entry>, n: nat)
    requires n > 0 && a != [] && b != [] && a[0].timestamp >= b[0].timestamp && DropsApart(a[1..], b, n - 1)
    ensures DropsApart(a, b, n)
  {
    StepFirst(a, b, n);
    hide Drop, Merge, FromFirst;
    DropCons(a[0], Merge(a[1..], b), n);
    DropOne(a, FromFirst(a, b, n));
  }

  lemma DropAfterSecond(a: seq<Entry>, b: seq<Entry>, n: nat)
    requires n > 0 && a != [] && b != [] && a[0].timestamp < b[0].timestamp && DropsApart(a, b[1..], n - 1)
    ensures DropsApart(a, b, n)
  {
    StepSecond(a, b, n);
    hide Drop, Merge, FromFirst;
    DropCons(b[0], Merge(a, b[1..]), n);
    DropOne(b, n - FromFirst(a, b, n));
  }

  lemma StepFirst(a: seq<Entry>, b: seq<Entry>, n: nat)
    requires n > 0 && a != [] && b != [] && a[0].timestamp >= b[0].timestamp
    ensures Merge(a, b) == [a[0]] + Merge(a[1..], b) && FromFirst(a, b, n) == 1 + FromFirst(a[1..], b, n - 1)
  {
  }

  lemma StepSecond(a: seq<Entry>, b: seq<Entry>, n: nat)
    requires n > 0 && a != [] && b != [] && a[0].timestamp < b[0].timestamp
    ensures Merge(a, b) == [b[0]] + Merge(a, b[1..]) && FromFirst(a, b, n) == FromFirst(a, b[1..], n - 1)
  {
  }

  lemma MergeNil(s: seq<Entry>)
    ensures Merge(s, []) == s && Merge([], s) == s
  {
  }

  lemma FromFirstEnds(a: seq<Entry>, b: seq<Entry>, n: nat)
    ensures n == 0 || a == [] ==> FromFirst(a, b, n) == 0
    ensures n > 0 && a != [] && b == [] ==> FromFirst(a, b, n) == n
  {
  }

  lemma DropEnds(a: seq<Entry>, b: seq<Entry>, n: nat)
    requires n == 0 || a == [] || b == []
    ensures DropsApart(a, b, n)
  {
    hide Merge, Drop, FromFirst;
    FromFirstEnds(a, b, n);
    if n == 0 {
      DropNothing(a);
      DropNothing(b);
      DropNothing(Merge(a, b));
    } else if a == [] {
      DropNothing(a);
      MergeNil(b);
      MergeNil(Drop(b, n));
    } else {
      DropNothing(b);
      MergeNil(a);
      MergeNil(Drop(a, n));
    }
  }

  // If an entry of the second list is among the first k of a merge, so is that list's head.
  lemma {:induction false} HeadComesFirst(a: seq<Entry>, b: seq<Entry>, k: nat, origin: Origin)
    requires b != [] && AllButFrom(a, origin)
    ensures AllButFrom(Take(Merge(a, b), k), origin) || b[0] in Take(Merge(a, b), k)
    decreases |a|
  {
    var m := Merge(a, b);
    if k > 0 && a != [] && a[0].timestamp >= b[0].timestamp {
      HeadComesFirst(a[1..], b, k - 1, origin);
      TakeCons(a[0], Merge(a[1..], b), k);
      var t := Take(Merge(a[1..], b), k - 1);
      assert Take(m, k) == [a[0]] + t;
    } else if k > 0 {
      assert m[0] == b[0] && Take(m, k)[0] == b[0];
    }
  }

  ghost predicate AllButFrom(es: seq<Entry>, origin: Origin) {
    forall i :: 0 <= i < |es| ==> es[i].origin != origin
  }

  lemma {:induction false} MergeSwaps(a: seq<Entry>, b: seq<Entry>, k: nat, origin: Origin)
    requires a != [] && AllButFrom(b, origin)
    ensures AllButFrom(Take(Merge(a, b), k), origin) || a[0] in Take(Merge(a, b), k)
    decreases |b|
  {
    var m := Merge(a, b);
    if k > 0 && b != [] && a[0].timestamp < b[0].timestamp {
      MergeSwaps(a, b[1..], k - 1, origin);
      TakeCons(b[0], Merge(a, b[1..]), k);
      assert Take(m, k) == [b[0]] + Take(Merge(a, b[1..]), k - 1);
    } else if k > 0 {
      assert m[0] == a[0] && Take(m, k)[0] == a[0];
    }
  }

  lemma {:induction false} MergeHas(a: seq<Entry>, b: seq<Entry>, e: Entry)
    ensures e in Merge(a, b) <==> e in a || e in b
    decreases |a| + |b|
  {
    if a != [] && b != [] {
      if a[0].timestamp >= b[0].timestamp {
        MergeHas(a[1..], b, e);
        assert a == [a[0]] + a[1..];
      } else {
        MergeHas(a, b[1..], e);
        assert b == [b[0]] + b[1..];
      }
    }
  }

  // The page served, as a merge.
  lemma PageIsMerge(logs: seq<Entry>, jobs: seq<Entry>, limit: nat, offset: nat)
    requires IsNewestFirst(logs) && IsNewestFirst(jobs)
    ensures PageOf(logs, jobs, limit, offset) == Take(Merge(Drop(logs, offset), Drop(jobs, offset)), limit)
    ensures TruePage(logs, jobs, limit, offset) == Take(Drop(Merge(logs, jobs), offset), limit)
  {
    var a, b := Drop(logs, offset), Drop(jobs, offset);
    SortIsMerge(Take(a, limit), Take(b, limit));
    MergeOfTakes(a, b, limit, limit, limit);
    SortIsMerge(logs, jobs);
  }

  lemma HeadAndTailFrom(x: Entry, s: seq<Entry>, k: nat, origin: Origin)
    requires k > 0 && AllFrom(Take([x] + s, k), origin)
    ensures x.origin == origin && AllFrom(Take(s, k - 1), origin)
  {
    TakeCons(x, s, k);
    var t := Take(s, k - 1);
    assert ([x] + t)[0] == x;
    forall i | 0 <= i < |t| ensures t[i].origin == origin {
      assert ([x] + t)[i + 1] == t[i];
    }
  }

  lemma TakeOne(s: seq<Entry>, k: nat)
    requires s != [] && k > 0
    ensures Take(s, k) == [s[0]] + Take(s[1..], k - 1)
  {
  }

  // The first k of a merge come from the first list alone.
  lemma {:induction false} OnlyFirst(a: seq<Entry>, b: seq<Entry>, k: nat)
    requires AllFrom(a, ErrorLog) && AllFrom(b, FailedEditJob) && AllFrom(Take(Merge(a, b), k), ErrorLog)
    ensures Take(Merge(a, b), k) == Take(a, k)
    ensures a != [] && b != [] && k > 0 ==> k <= |a| && a[k - 1].timestamp >= b[0].timestamp
    ensures a == [] && k > 0 ==> b == []
    decreases k
  {
    hide Merge, Take;
    if k == 0 {
      TakeNone(Merge(a, b));
      TakeNone(a);
    } else if b == [] {
      MergeNil(a);
    } else if a == [] {
      MergeNil(b);
      TakeHead(b, k);
    } else if a[0].timestamp >= b[0].timestamp {
      StepFirst(a, b, k);
      HeadAndTailFrom(a[0], Merge(a[1..], b), k, ErrorLog);
      OnlyFirst(a[1..], b, k - 1);
      TakeCons(a[0], Merge(a[1..], b), k);
      TakeOne(a, k);
    } else {
      StepSecond(a, b, k);
      HeadAndTailFrom(b[0], Merge(a, b[1..]), k, ErrorLog);
    }
  }

  lemma TakeNone(s: seq<Entry>)
    ensures Take(s, 0) == []
  {
  }

  // And here from the second.
  lemma {:induction false} OnlySecond(a: seq<Entry>, b: seq<Entry>, k: nat)
    requires AllFrom(a, ErrorLog) && AllFrom(b, FailedEditJob) && AllFrom(Take(Merge(a, b), k), FailedEditJob)
    ensures Take(Merge(a, b), k) == Take(b, k)
    ensures a != [] && k > 0 ==> k <= |b| && b[k - 1].timestamp > a[0].timestamp
    decreases k
  {
    hide Merge, Take;
    if k == 0 {
      TakeNone(Merge(a, b));
      TakeNone(b);
    } else if a == [] {
      MergeNil(b);
    } else if b == [] {
      MergeNil(a);
      TakeHead(a, k);
    } else if a[0].timestamp >= b[0].timestamp {
      StepFirst(a, b, k);
      HeadAndTailFrom(a[0], Merge(a[1..], b), k, FailedEditJob);
    } else {
      StepSecond(a, b, k);
      HeadAndTailFrom(b[0], Merge(a, b[1..]), k, FailedEditJob);
      OnlySecond(a, b[1..], k - 1);
      TakeCons(b[0], Merge(a, b[1..]), k);
      TakeOne(b, k);
    }
  }

  // A list whose first k entries are no older than the other's head wins the first k places.
  lemma {:induction false} FirstWins(a: seq<Entry>, b: seq<Entry>, k: nat)
    requires IsNewestFirst(a) && (b != [] && k > 0 ==> k <= |a| && a[k - 1].timestamp >= b[0].timestamp)
    ensures Take(Merge(a, b), k) == Take(a, k)
    decreases k
  {
    hide Merge, Take;
    if k == 0 {
      TakeNone(Merge(a, b));
      TakeNone(a);
    } else if b == [] {
      MergeNil(a);
    } else {
      assert a[0].timestamp >= a[k - 1].timestamp;
      StepFirst(a, b, k);
      FirstWins(a[1..], b, k - 1);
      TakeCons(a[0], Merge(a[1..], b), k);
      TakeOne(a, k);
    }
  }

  lemma {:induction false} SecondWins(a: seq<Entry>, b: seq<Entry>, k: nat)
    requires IsNewestFirst(b) && (a != [] && k > 0 ==> k <= |b| && b[k - 1].timestamp > a[0].timestamp)
    ensures Take(Merge(a, b), k) == Take(b, k)
    decreases k
  {
    hide Merge, Take;
    if k == 0 {
      TakeNone(Merge(a, b));
      TakeNone(b);
    } else if a == [] {
      MergeNil(b);
    } else {
      assert b[0].timestamp >= b[k - 1].timestamp;
      StepSecond(a, b, k);
      SecondWins(a, b[1..], k - 1);
      TakeCons(b[0], Merge(a, b[1..]), k);
      TakeOne(b, k);
    }
  }

  lemma ConsFrom(x: Entry, s: seq<Entry>, k: nat, origin: Origin)
    requires k > 0 && x.origin == origin && AllFrom(Take(s, k - 1), origin)
    ensures AllFrom(Take([x] + s, k), origin)
  {
    TakeCons(x, s, k);
  }

  lemma {:induction false} PrefixOrigins(a: seq<Entry>, b: seq<Entry>, n: nat)
    requires AllFrom(a, ErrorLog) && AllFrom(b, FailedEditJob)
    ensures FromFirst(a, b, n) == n ==> n == 0 || AllFrom(Take(Merge(a, b), n), ErrorLog)
    ensures FromFirst(a, b, n) == 0 ==> n == 0 || AllFrom(Take(Merge(a, b), n), FailedEditJob)
    decreases n
  {
    if n > 0 {
      if a == [] || b == [] {
        MergeNil(a);
        MergeNil(b);
        TakeFrom(a, n, ErrorLog);
        TakeFrom(b, n, FailedEditJob);
      } else if a[0].timestamp >= b[0].timestamp {
        PrefixOrigins(a[1..], b, n - 1);
        StepFirst(a, b, n);
        hide Merge, FromFirst, Take;
        TakeNone(Merge(a[1..], b));
        if FromFirst(a, b, n) == n {
          ConsFrom(a[0], Merge(a[1..], b), n, ErrorLog);
        }
      } else {
        PrefixOrigins(a, b[1..], n - 1);
        StepSecond(a, b, n);
        hide Merge, FromFirst, Take;
        TakeNone(Merge(a, b[1..]));
        if FromFirst(a, b, n) == 0 {
          ConsFrom(b[0], Merge(a, b[1..]), n, FailedEditJob);
        }
      }
    }
  }

  // An entry among the first o of its own source is on no page at offset o.
  lemma NotServed(a: seq<Entry>, b: seq<Entry>, limit: nat, o: nat, i: nat)
    requires SourceOf(a, ErrorLog) && SourceOf(b, FailedEditJob)
    ensures i < o && i < |a| ==> a[i] !in Take(Merge(Drop(a, o), Drop(b, o)), limit)
    ensures i < o && i < |b| ==> b[i] !in Take(Merge(Drop(a, o), Drop(b, o)), limit)
  {
    var m := Merge(Drop(a, o), Drop(b, o));
    if i < o && i < |a| {
      MergeHas(Drop(a, o), Drop(b, o), a[i]);
    }
    if i < o && i < |b| {
      MergeHas(Drop(a, o), Drop(b, o), b[i]);
    }
  }

  ghost predicate OneSource(es: seq<Entry>) {
    AllFrom(es, ErrorLog) || AllFrom(es, FailedEditJob)
  }

  lemma SplitTake(m: seq<Entry>, o: nat, k: nat)
    ensures Take(m, o + k) == Take(m, o) + Take(Drop(m, o), k)
    ensures Take(Drop(m, o), k) == Drop(Take(m, o + k), o)
  {
  }

  lemma DropAt(s: seq<Entry>, o: nat, k: nat)
    requires IsNewestFirst(s)
    ensures Drop(s, o) != [] ==> s != [] && Drop(s, o)[0].timestamp <= s[0].timestamp
    ensures k > 0 && o + k <= |s| ==> |Drop(s, o)| == |s| - o && Drop(s, o)[k - 1] == s[o + k - 1]
  {
  }

  lemma OnlyLogsRead(a: seq<Entry>, b: seq<Entry>, k: nat, o: nat)
    requires SourceOf(a, ErrorLog) && SourceOf(b, FailedEditJob) && k > 0 && AllFrom(Take(Merge(a, b), o + k), ErrorLog)
    ensures Take(Merge(Drop(a, o), Drop(b, o)), k) == Take(Drop(Merge(a, b), o), k)
  {
    OnlyFirst(a, b, o + k);
    hide AllFrom;
    SplitTake(Merge(a, b), o, k);
    SplitTake(a, o, k);
    DropSorted(a, o);
    DropAt(a, o, k);
    DropAt(b, o, k);
    assert a == [] ==> b == [] && Drop(a, o) == [] && Drop(b, o) == [];
    hide Drop, Take, Merge, IsNewestFirst;
    FirstWins(Drop(a, o), Drop(b, o), k);
  }

  lemma OnlyJobsRead(a: seq<Entry>, b: seq<Entry>, k: nat, o: nat)
    requires SourceOf(a, ErrorLog) && SourceOf(b, FailedEditJob) && k > 0 &&
             AllFrom(Take(Merge(a, b), o + k), FailedEditJob)
    ensures Take(Merge(Drop(a, o), Drop(b, o)), k) == Take(Drop(Merge(a, b), o), k)
  {
    OnlySecond(a, b, o + k);
    hide AllFrom;
    SplitTake(Merge(a, b), o, k);
    SplitTake(b, o, k);
    DropSorted(b, o);
    DropAt(b, o, k);
    DropAt(a, o, k);
    hide Drop, Take, Merge, IsNewestFirst;
    SecondWins(Drop(a, o), Drop(b, o), k);
  }

  // While the pages so far read one source alone, the page served is the true one.
  lemma OneSourceSuffices(a: seq<Entry>, b: seq<Entry>, k: nat, o: nat)
    requires SourceOf(a, ErrorLog) && SourceOf(b, FailedEditJob) && k > 0 && OneSource(Take(Merge(a, b), o + k))
    ensures Take(Merge(Drop(a, o), Drop(b, o)), k) == Take(Drop(Merge(a, b), o), k)
  {
    hide AllFrom, Take, Merge, Drop, SourceOf;
    if AllFrom(Take(Merge(a, b), o + k), ErrorLog) {
      OnlyLogsRead(a, b, k, o);
    } else {
      OnlyJobsRead(a, b, k, o);
    }
  }

  lemma DropSorted(s: seq<Entry>, n: nat)
    requires IsNewestFirst(s)
    ensures IsNewestFirst(Drop(s, n))
  {
  }

  lemma JoinedOrigins(s: seq<Entry>, t: seq<Entry>, origin: Origin)
    requires AllFrom(s, origin) && AllFrom(t, origin)
    ensures AllFrom(s + t, origin)
  {
  }

  lemma OriginOrOther(s: seq<Entry>)
    ensures AllButFrom(s, FailedEditJob) ==> AllFrom(s, ErrorLog)
    ensures AllButFrom(s, ErrorLog) ==> AllFrom(s, FailedEditJob)
  {
    forall i | 0 <= i < |s| ensures s[i].origin == ErrorLog || s[i].origin == FailedEditJob {
      assert s[i].origin.ErrorLog? || s[i].origin.FailedEditJob?;
    }
  }

  lemma DifferBy(s: seq<Entry>, t: seq<Entry>, e: Entry)
    requires e in t && e !in s
    ensures s != t
  {
  }

  // All entries before the page are of one source, so one of the other is on it: that one's
  // very first, which the page served has skipped.
  lemma FirstSourceOnly(a: seq<Entry>, b: seq<Entry>, k: nat, o: nat)
    requires SourceOf(a, ErrorLog) && SourceOf(b, FailedEditJob) && k > 0 && o > 0
    requires FromFirst(a, b, o) == o && !OneSource(Take(Merge(a, b), o + k))
    ensures Take(Merge(Drop(a, o), Drop(b, o)), k) != Take(Drop(Merge(a, b), o), k)
  {
    assert AllFrom(a, ErrorLog) && AllFrom(b, FailedEditJob);
    hide Take, Drop, Merge, FromFirst, SourceOf, AllFrom;
    var x, t := Drop(a, o), Take(Drop(Merge(a, b), o), k);
    DropOfMerge(a, b, o);
    DropNothing(b);
    SplitTake(Merge(a, b), o, k);
    PrefixOrigins(a, b, o);
    DropFrom(a, o, ErrorLog);
    OriginOrOther(t);
    if b == [] {
      MergeNil(x);
      TakeFrom(x, k, ErrorLog);
      JoinedOrigins(Take(Merge(a, b), o), t, ErrorLog);
    } else {
      NotServed(a, b, k, o, 0);
      OnlyOneOrigin(x, ErrorLog, FailedEditJob);
      HeadComesFirst(x, b, k, FailedEditJob);
      if AllButFrom(t, FailedEditJob) {
        JoinedOrigins(Take(Merge(a, b), o), t, ErrorLog);
      } else {
        DifferBy(Take(Merge(Drop(a, o), Drop(b, o)), k), t, b[0]);
      }
    }
  }

  lemma SecondSourceOnly(a: seq<Entry>, b: seq<Entry>, k: nat, o: nat)
    requires SourceOf(a, ErrorLog) && SourceOf(b, FailedEditJob) && k > 0 && o > 0
    requires FromFirst(a, b, o) == 0 && !OneSource(Take(Merge(a, b), o + k))
    ensures Take(Merge(Drop(a, o), Drop(b, o)), k) != Take(Drop(Merge(a, b), o), k)
  {
    assert AllFrom(a, ErrorLog) && AllFrom(b, FailedEditJob);
    hide Take, Drop, Merge, FromFirst, SourceOf, AllFrom;
    var y, t := Drop(b, o), Take(Drop(Merge(a, b), o), k);
    DropOfMerge(a, b, o);
    DropNothing(a);
    SplitTake(Merge(a, b), o, k);
    PrefixOrigins(a, b, o);
    DropFrom(b, o, FailedEditJob);
    OriginOrOther(t);
    if a == [] {
      MergeNil(y);
      TakeFrom(y, k, FailedEditJob);
      JoinedOrigins(Take(Merge(a, b), o), t, FailedEditJob);
    } else {
      NotServed(a, b, k, o, 0);
      OnlyOneOrigin(y, FailedEditJob, ErrorLog);
      MergeSwaps(a, y, k, ErrorLog);
      if AllButFrom(t, ErrorLog) {
        JoinedOrigins(Take(Merge(a, b), o), t, FailedEditJob);
      } else {
        DifferBy(Take(Merge(Drop(a, o), Drop(b, o)), k), t, a[0]);
      }
    }
  }

  lemma OnlyOneOrigin(s: seq<Entry>, origin: Origin, other: Origin)
    requires AllFrom(s, origin) && other != origin
    ensures AllButFrom(s, other)
  {
  }

  lemma DropFrom(s: seq<Entry>, n: nat, origin: Origin)
    requires AllFrom(s, origin)
    ensures AllFrom(Drop(s, n), origin)
  {
  }

  lemma TakeFrom(s: seq<Entry>, n: nat, origin: Origin)
    requires AllFrom(s, origin)
    ensures AllFrom(Take(s, n), origin)
  {
  }

  lemma MergeHead(x: seq<Entry>, y: seq<Entry>)
    requires Merge(x, y) != []
    ensures (x != [] && Merge(x, y)[0] == x[0]) || (y != [] && Merge(x, y)[0] == y[0])
  {
  }

  lemma DropHead(s: seq<Entry>, n: nat)
    ensures Drop(s, n) != [] ==> n < |s| && Drop(s, n)[0] == s[n]
  {
  }

  lemma TakeHead(s: seq<Entry>, k: nat)
    requires s != [] && k > 0
    ensures Take(s, k) != [] && Take(s, k)[0] == s[0] && s[0] in Take(s, k)
  {
    assert Take(s, k)[0] == s[0];
  }

  // Both sources have been read: the page's first entry is one the other offset has skipped.
  lemma BothRead(a: seq<Entry>, b: seq<Entry>, k: nat, o: nat)
    requires SourceOf(a, ErrorLog) && SourceOf(b, FailedEditJob) && k > 0
    requires Drop(Merge(a, b), o) != [] && 0 < FromFirst(a, b, o) < o
    ensures Take(Merge(Drop(a, o), Drop(b, o)), k) != Take(Drop(Merge(a, b), o), k)
  {
    hide Take, Drop, Merge, FromFirst, SourceOf;
    var i := FromFirst(a, b, o);
    var j := o - i;
    DropOfMerge(a, b, o);
    MergeHead(Drop(a, i), Drop(b, j));
    DropHead(a, i);
    DropHead(b, j);
    NotServed(a, b, k, o, i);
    NotServed(a, b, k, o, j);
    TakeHead(Drop(Merge(a, b), o), k);
    DifferBy(Take(Merge(Drop(a, o), Drop(b, o)), k), Take(Drop(Merge(a, b), o), k), Drop(Merge(a, b), o)[0]);
  }

  // Once both sources have been read, the page served misses an entry it should show.
  lemma MixedPagesLose(a: seq<Entry>, b: seq<Entry>, k: nat, o: nat)
    requires SourceOf(a, ErrorLog) && SourceOf(b, FailedEditJob) && k > 0 && o > 0
    requires Drop(Merge(a, b), o) != [] && !OneSource(Take(Merge(a, b), o + k))
    ensures Take(Merge(Drop(a, o), Drop(b, o)), k) != Take(Drop(Merge(a, b), o), k)
  {
    hide Take, Drop, Merge, FromFirst, SourceOf;
    var i := FromFirst(a, b, o);
    if i == o {
      FirstSourceOnly(a, b, k, o);
    } else if i == 0 {
      SecondSourceOnly(a, b, k, o);
    } else {
      BothRead(a, b, k, o);
    }
  }

  lemma {:induction false} MergeLength(a: seq<Entry>, b: seq<Entry>)
    ensures |Merge(a, b)| == |a| + |b|
    decreases |a| + |b|
  {
    if a != [] && b != [] {
      if a[0].timestamp >= b[0].timestamp {
        MergeLength(a[1..], b);
      } else {
        MergeLength(a, b[1..]);
      }
    }
  }

  // A later page is the true one if and only if nothing is left to show, or everything up to
  // the page's end in the merged order comes from one source.
  lemma LaterPageIff(logs: seq<Entry>, jobs: seq<Entry>, limit: nat, offset: nat)
    requires SourceOf(logs, ErrorLog) && SourceOf(jobs, FailedEditJob) && limit > 0 && offset > 0
    ensures PageOf(logs, jobs, limit, offset) == TruePage(logs, jobs, limit, offset)
       <==> |logs| + |jobs| <= offset || OneSource(Take(NewestFirst(logs + jobs), offset + limit))
  {
    PageIsMerge(logs, jobs, limit, offset);
    SortIsMerge(logs, jobs);
    MergeLength(logs, jobs);
    var m := Merge(logs, jobs);
    if |m| <= offset {
      assert Drop(m, offset) == [] && Drop(logs, offset) == [] && Drop(jobs, offset) == [];
    } else if OneSource(Take(m, offset + limit)) {
      OneSourceSuffices(logs, jobs, limit, offset);
    } else {
      MixedPagesLose(logs, jobs, limit, offset);
    }
  }

  // The smallest mixed case: the second page of one misses the entry that should be on it.
  lemma SecondPageCanMiss()
    ensures var log, job0, job1 := Entry("a", 10, ErrorLog), Entry("b", 9, FailedEditJob), Entry("c", 8, FailedEditJob);
            PageOf([log], [job0, job1], 1, 1) == [job1] && TruePage([log], [job0, job1], 1, 1) == [job0]
  {
    var log, job0, job1 := Entry("a", 10, ErrorLog), Entry("b", 9, FailedEditJob), Entry("c", 8, FailedEditJob);
    PageIsMerge([log], [job0, job1], 1, 1);
    assert [log][1..] == [];
    assert Drop([log], 1) == [] && Drop([job0, job1], 1) == [job1];
    assert Merge([log], [job0, job1]) == [log] + Merge([], [job0, job1]) == [log, job0, job1];
    assert Drop([log, job0, job1], 1) == [job0, job1];
  }
}
