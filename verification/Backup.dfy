/**
 * Retention of the controller's database backups: which timestamped files survive a prune, and what
 * the backup target holds after any history of uploads, prunes, failed listings and failed deletes.
 */
module Backup {
  import opened Prelude

  /** The instant, in epoch milliseconds, that names a backup file. */
  datatype Stamp = Stamp(ms: int)

  /** How many backups each tier keeps. A count that is zero or negative switches the tier off. */
  datatype Policy = Policy(recent: int, weekly: int, monthly: int, yearly: int)

  /** Calendar buckets of a stamp. Nothing below depends on what the buckets are. */
  datatype Calendar = Calendar(week: Stamp -> string, month: Stamp -> string, year: Stamp -> string)

  // ------------------------------------------------------------------ what a tier keeps

  /** The newest member of its bucket. */
  ghost predicate Leads<B>(S: set<Stamp>, bucketOf: Stamp -> B, s: Stamp) {
    s in S && forall t :: t in S && s.ms < t.ms ==> bucketOf(t) != bucketOf(s)
  }

  ghost function NewerBuckets<B>(S: set<Stamp>, bucketOf: Stamp -> B, s: Stamp): set<B> {
    set t | t in S && s.ms < t.ms :: bucketOf(t)
  }

  /** The newest backup of each of the `count` most recent buckets. */
  ghost function Tier<B(!new)>(S: set<Stamp>, bucketOf: Stamp -> B, count: int): set<Stamp> {
    set s | s in S && Leads(S, bucketOf, s) && |NewerBuckets(S, bucketOf, s)| < count
  }

  /** Every backup is a bucket of its own: the tier of the newest `recent` backups. */
  function Self(s: Stamp): Stamp { s }

  ghost function Keep(S: set<Stamp>, p: Policy, c: Calendar): set<Stamp> {
    Tier(S, Self, p.recent) + Tier(S, c.week, p.weekly) + Tier(S, c.month, p.monthly) + Tier(S, c.year, p.yearly)
  }

  function Cap(n: int): nat { if n < 0 then 0 else n }

  lemma {:induction false} TierSize<B(!new)>(S: set<Stamp>, bucketOf: Stamp -> B, count: int)
    ensures |Tier(S, bucketOf, count)| <= Cap(count)
  {
    LeadersBelowLimit(S, bucketOf, count, Tier(S, bucketOf, count));
  }

  lemma {:induction false} LeadersBelowLimit<B>(S: set<Stamp>, bucketOf: Stamp -> B, count: int, L: set<Stamp>)
    requires forall s :: s in L ==> Leads(S, bucketOf, s) && |NewerBuckets(S, bucketOf, s)| < count
    ensures |L| <= Cap(count)
  {
    if L != {} {
      var oldest := Least(L);
      var newer := L - {oldest};
      BucketsOfLeaders(S, bucketOf, newer);
      var image := set t | t in newer :: bucketOf(t);
      assert image <= NewerBuckets(S, bucketOf, oldest);
      SubsetSize(image, NewerBuckets(S, bucketOf, oldest));
    }
  }

  /** The retained set never exceeds the sum of the configured counts. */
  lemma KeepSize(S: set<Stamp>, p: Policy, c: Calendar)
    ensures |Keep(S, p, c)| <= Cap(p.recent) + Cap(p.weekly) + Cap(p.monthly) + Cap(p.yearly)
  {
    TierSize(S, Self, p.recent);
    TierSize(S, c.week, p.weekly);
    TierSize(S, c.month, p.monthly);
    TierSize(S, c.year, p.yearly);
    UnionSize(Tier(S, Self, p.recent), Tier(S, c.week, p.weekly));
    UnionSize(Tier(S, Self, p.recent) + Tier(S, c.week, p.weekly), Tier(S, c.month, p.monthly));
    UnionSize(Tier(S, Self, p.recent) + Tier(S, c.week, p.weekly) + Tier(S, c.month, p.monthly),
              Tier(S, c.year, p.yearly));
  }

  lemma UnionSize<T>(A: set<T>, B: set<T>)
    ensures |A + B| <= |A| + |B|
  {
    assert A + B == A + (B - A);
    SubsetSize(B - A, B);
  }

  ghost function Least(S: set<Stamp>): (m: Stamp)
    requires S != {}
    ensures m in S && forall t :: t in S ==> m.ms <= t.ms
    decreases |S|
  {
    var x :| x in S;
    if S == {x} then x
    else
      var rest := Least(S - {x});
      assert forall t :: t in S ==> t == x || t in S - {x};
      if x.ms < rest.ms then x else rest
  }

  /** Distinct leaders have distinct buckets, so a set of leaders has as many buckets as members. */
  lemma {:induction false} BucketsOfLeaders<B>(S: set<Stamp>, bucketOf: Stamp -> B, L: set<Stamp>)
    requires forall s :: s in L ==> Leads(S, bucketOf, s)
    ensures |set s | s in L :: bucketOf(s)| == |L|
    decreases |L|
  {
    if L != {} {
      var x :| x in L;
      var rest := L - {x};
      BucketsOfLeaders(S, bucketOf, rest);
      var image := set s | s in rest :: bucketOf(s);
      assert bucketOf(x) !in image;
      assert (set s | s in L :: bucketOf(s)) == image + {bucketOf(x)};
    }
  }

  ghost function BucketsIn<B>(S: set<Stamp>, bucketOf: Stamp -> B): set<B> {
    set s | s in S :: bucketOf(s)
  }

  lemma LeaderOf<B>(S: set<Stamp>, bucketOf: Stamp -> B, s: Stamp) returns (leader: Stamp)
    requires s in S
    ensures Leads(S, bucketOf, leader) && bucketOf(leader) == bucketOf(s) && s.ms <= leader.ms
  {
    var bucket := set u | u in S && bucketOf(u) == bucketOf(s);
    assert s in bucket;
    leader := Newest(bucket);
  }

  /** A leader that the tier drops has at least `count` newer buckets, all of which the tier represents. */
  lemma DroppedLeader<B(!new)>(S: set<Stamp>, bucketOf: Stamp -> B, count: int, dropped: set<Stamp>)
    requires dropped == (set s | s in S && Leads(S, bucketOf, s) && s !in Tier(S, bucketOf, count)) && dropped != {}
    ensures count <= |BucketsIn(Tier(S, bucketOf, count), bucketOf)|
  {
    var newest := Newest(dropped);
    var tier := Tier(S, bucketOf, count);
    forall b | b in NewerBuckets(S, bucketOf, newest)
      ensures b in BucketsIn(tier, bucketOf)
    {
      var t :| t in S && newest.ms < t.ms && bucketOf(t) == b;
      var leader := LeaderOf(S, bucketOf, t);
      assert leader !in dropped;
      assert leader in tier;
    }
    SubsetSize(NewerBuckets(S, bucketOf, newest), BucketsIn(tier, bucketOf));
  }

  /**
   * What a tier keeps, without counting: one backup for each of the most recent `count` buckets, or of all
   * if there are fewer; each the newest of its bucket, and newer than everything in a bucket left out.
   */
  lemma TierKeepsTheNewestBuckets<B(!new)>(S: set<Stamp>, bucketOf: Stamp -> B, count: int)
    ensures
      var tier := Tier(S, bucketOf, count);
      && tier <= S
      && (forall t, u :: t in tier && u in S && bucketOf(u) == bucketOf(t) ==> u.ms <= t.ms)
      && |tier| == (if Cap(count) < |BucketsIn(S, bucketOf)| then Cap(count) else |BucketsIn(S, bucketOf)|)
      && (forall s, t :: s in S && t in tier && bucketOf(s) !in BucketsIn(tier, bucketOf) ==> s.ms < t.ms)
  {
    var tier := Tier(S, bucketOf, count);
    TierSize(S, bucketOf, count);
    BucketsOfLeaders(S, bucketOf, tier);
    assert (set s | s in tier :: bucketOf(s)) == BucketsIn(tier, bucketOf);
    SubsetSize(BucketsIn(tier, bucketOf), BucketsIn(S, bucketOf));
    var dropped := set s | s in S && Leads(S, bucketOf, s) && s !in tier;
    if dropped != {} {
      DroppedLeader(S, bucketOf, count, dropped);
    } else {
      forall s | s in S
        ensures bucketOf(s) in BucketsIn(tier, bucketOf)
      {
        var leader := LeaderOf(S, bucketOf, s);
        assert leader !in dropped;
      }
      assert BucketsIn(tier, bucketOf) == BucketsIn(S, bucketOf);
    }
    forall s, t | s in S && t in tier && bucketOf(s) !in BucketsIn(tier, bucketOf)
      ensures s.ms < t.ms
    {
      LeftOutIsOlder(S, bucketOf, count, s, t);
    }
  }

  lemma LeftOutIsOlder<B(!new)>(S: set<Stamp>, bucketOf: Stamp -> B, count: int, s: Stamp, t: Stamp)
    requires s in S && t in Tier(S, bucketOf, count) && bucketOf(s) !in BucketsIn(Tier(S, bucketOf, count), bucketOf)
    ensures s.ms < t.ms
  {
    var leader := LeaderOf(S, bucketOf, s);
    assert leader !in Tier(S, bucketOf, count);
    if s.ms >= t.ms {
      assert leader == t || leader.ms > t.ms;
      SubsetSize(NewerBuckets(S, bucketOf, leader), NewerBuckets(S, bucketOf, t));
    }
  }

  // ------------------------------------------------------------------ path independence

  /** A backup kept out of a large collection is kept out of every part of it that holds it. */
  lemma TierHeredity<B(!new)>(A: set<Stamp>, U: set<Stamp>, bucketOf: Stamp -> B, count: int)
    requires A <= U
    ensures Tier(U, bucketOf, count) * A <= Tier(A, bucketOf, count)
  {
    forall s | s in Tier(U, bucketOf, count) * A
      ensures s in Tier(A, bucketOf, count)
    {
      SubsetSize(NewerBuckets(A, bucketOf, s), NewerBuckets(U, bucketOf, s));
    }
  }

  /** The leader of a bucket has fewer newer buckets than anything older that sees that bucket. */
  lemma LeaderInTier<B(!new)>(U: set<Stamp>, bucketOf: Stamp -> B, count: int, s: Stamp, t: Stamp) returns (leader: Stamp)
    requires t in U && s.ms < t.ms
    requires |NewerBuckets(U, bucketOf, s)| <= count
    ensures s.ms < leader.ms && leader in Tier(U, bucketOf, count) && bucketOf(leader) == bucketOf(t)
  {
    var bucket := set u | u in U && bucketOf(u) == bucketOf(t);
    assert t in bucket;
    leader := Newest(bucket);
    assert Leads(U, bucketOf, leader);
    assert bucketOf(leader) in NewerBuckets(U, bucketOf, s);
    assert NewerBuckets(U, bucketOf, leader) <= NewerBuckets(U, bucketOf, s) - {bucketOf(leader)};
    SubsetSize(NewerBuckets(U, bucketOf, leader), NewerBuckets(U, bucketOf, s) - {bucketOf(leader)});
  }

  ghost function Newest(S: set<Stamp>): (m: Stamp)
    requires S != {}
    ensures m in S && forall t :: t in S ==> t.ms <= m.ms
    decreases |S|
  {
    var x :| x in S;
    if S == {x} then x
    else
      var rest := Newest(S - {x});
      assert forall t :: t in S ==> t == x || t in S - {x};
      if x.ms > rest.ms then x else rest
  }

  /** Below the limit, every newer bucket is shown by the tier. */
  lemma TierShowsFewBuckets<B(!new)>(U: set<Stamp>, bucketOf: Stamp -> B, count: nat, s: Stamp)
    requires |NewerBuckets(U, bucketOf, s)| <= count
    ensures NewerBuckets(U, bucketOf, s) <= NewerBuckets(Tier(U, bucketOf, count), bucketOf, s)
  {
    forall b | b in NewerBuckets(U, bucketOf, s)
      ensures b in NewerBuckets(Tier(U, bucketOf, count), bucketOf, s)
    {
      var t :| t in U && s.ms < t.ms && bucketOf(t) == b;
      var leader := LeaderInTier(U, bucketOf, count, s, t);
    }
  }

  lemma StepToNext<B>(U: set<Stamp>, bucketOf: Stamp -> B, s: Stamp) returns (next: Stamp)
    requires NewerBuckets(U, bucketOf, s) != {}
    ensures next in U && s.ms < next.ms
    ensures NewerBuckets(U, bucketOf, s) <= NewerBuckets(U, bucketOf, next) + {bucketOf(next)}
    ensures Newer(U, next) < Newer(U, s)
  {
    var b := Any(NewerBuckets(U, bucketOf, s));
    var t :| t in U && s.ms < t.ms && bucketOf(t) == b;
    assert t in Newer(U, s);
    next := Least(Newer(U, s));
    assert next in Newer(U, s) && next !in Newer(U, next);
    assert forall u :: u in U && s.ms < u.ms ==> u in Newer(U, s);
    assert forall u :: u in Newer(U, s) ==> u.ms > next.ms || u.ms == next.ms;
    assert forall u :: u in Newer(U, s) && u.ms == next.ms ==> u == next;
  }

  ghost function Newer(U: set<Stamp>, s: Stamp): set<Stamp> {
    set t | t in U && s.ms < t.ms
  }

  /** Above any point the tier itself shows as many buckets as it is allowed to keep. */
  lemma {:induction false} TierShowsBuckets<B(!new)>(U: set<Stamp>, bucketOf: Stamp -> B, count: nat, s: Stamp)
    requires |NewerBuckets(U, bucketOf, s)| >= count
    ensures |NewerBuckets(Tier(U, bucketOf, count), bucketOf, s)| >= count
    decreases Newer(U, s)
  {
    var kept := Tier(U, bucketOf, count);
    if |NewerBuckets(U, bucketOf, s)| == count {
      TierShowsFewBuckets(U, bucketOf, count, s);
      SubsetSize(NewerBuckets(U, bucketOf, s), NewerBuckets(kept, bucketOf, s));
    } else {
      var next := StepToNext(U, bucketOf, s);
      SubsetSize(NewerBuckets(U, bucketOf, s), NewerBuckets(U, bucketOf, next) + {bucketOf(next)});
      TierShowsBuckets(U, bucketOf, count, next);
      SubsetSize(NewerBuckets(kept, bucketOf, next), NewerBuckets(kept, bucketOf, s));
    }
  }

  /** Forgetting backups that the tier would drop anyway does not change what the tier keeps. */
  lemma TierOutcast<B(!new)>(U: set<Stamp>, V: set<Stamp>, bucketOf: Stamp -> B, count: int)
    requires Tier(U, bucketOf, count) <= V <= U
    ensures Tier(V, bucketOf, count) == Tier(U, bucketOf, count)
  {
    TierHeredity(V, U, bucketOf, count);
    forall s | s in Tier(V, bucketOf, count)
      ensures s in Tier(U, bucketOf, count)
    {
      if |NewerBuckets(U, bucketOf, s)| >= count {
        TierShowsBuckets(U, bucketOf, count, s);
        SubsetSize(NewerBuckets(Tier(U, bucketOf, count), bucketOf, s), NewerBuckets(V, bucketOf, s));
        assert false;
      }
      if t :| t in U && s.ms < t.ms && bucketOf(t) == bucketOf(s) {
        var leader := LeaderInTier(U, bucketOf, count, s, t);
        assert false;
      }
    }
  }

  lemma KeepSubset(S: set<Stamp>, p: Policy, c: Calendar)
    ensures Keep(S, p, c) <= S
  {
    TierSubset(S, Self, p.recent);
    TierSubset(S, c.week, p.weekly);
    TierSubset(S, c.month, p.monthly);
    TierSubset(S, c.year, p.yearly);
    hide Tier;
  }

  lemma TierSubset<B(!new)>(S: set<Stamp>, bucketOf: Stamp -> B, count: int)
    ensures Tier(S, bucketOf, count) <= S
  {
  }

  lemma KeepHeredity(A: set<Stamp>, U: set<Stamp>, p: Policy, c: Calendar)
    requires A <= U
    ensures Keep(U, p, c) * A <= Keep(A, p, c)
  {
    TierHeredity(A, U, Self, p.recent);
    TierHeredity(A, U, c.week, p.weekly);
    TierHeredity(A, U, c.month, p.monthly);
    TierHeredity(A, U, c.year, p.yearly);
  }

  lemma KeepOutcast(U: set<Stamp>, V: set<Stamp>, p: Policy, c: Calendar)
    requires Keep(U, p, c) <= V <= U
    ensures Keep(V, p, c) == Keep(U, p, c)
  {
    TierOutcast(U, V, Self, p.recent);
    TierOutcast(U, V, c.week, p.weekly);
    TierOutcast(U, V, c.month, p.monthly);
    TierOutcast(U, V, c.year, p.yearly);
  }

  /** Retention is path independent: pruning early loses nothing that a later prune would keep. */
  lemma PathIndependence(A: set<Stamp>, B: set<Stamp>, p: Policy, c: Calendar)
    ensures Keep(A + B, p, c) == Keep(Keep(A, p, c) + B, p, c)
  {
    KeepHeredity(A, A + B, p, c);
    KeepSubset(A, p, c);
    KeepSubset(A + B, p, c);
    hide *;
    KeepOutcast(A + B, Keep(A, p, c) + B, p, c);
  }

  // ------------------------------------------------------------------ the greedy loops

  ghost predicate NewestFirst(s: seq<Stamp>) {
    forall i, j :: 0 <= i < j < |s| ==> s[i].ms >= s[j].ms
  }

  function InsertNewestFirst(x: Stamp, s: seq<Stamp>): (r: seq<Stamp>)
  {
    if s == [] || x.ms >= s[0].ms then [x] + s else [s[0]] + InsertNewestFirst(x, s[1..])
  }

  lemma {:induction false} InsertionAdds(x: Stamp, s: seq<Stamp>)
    ensures multiset(InsertNewestFirst(x, s)) == multiset(s) + multiset{x}
    ensures Elements(InsertNewestFirst(x, s)) == Elements(s) + {x}
  {
    if s != [] && x.ms < s[0].ms {
      InsertionAdds(x, s[1..]);
      assert s == [s[0]] + s[1..];
    }
    SameElements(InsertNewestFirst(x, s), [x] + s);
  }

  lemma {:induction false} InsertionSorts(x: Stamp, s: seq<Stamp>)
    requires NewestFirst(s)
    ensures NewestFirst(InsertNewestFirst(x, s))
  {
    if s != [] && x.ms < s[0].ms {
      var rest := InsertNewestFirst(x, s[1..]);
      InsertionSorts(x, s[1..]);
      InsertionAdds(x, s[1..]);
      hide InsertNewestFirst;
      forall i | 0 <= i < |rest|
        ensures s[0].ms >= rest[i].ms
      {
        assert rest[i] in Elements(rest);
      }
      assert NewestFirst([s[0]] + rest);
    }
  }

  /** Stamps in descending order, repeats included. */
  function SortNewestFirst(stamps: seq<Stamp>): (r: seq<Stamp>) {
    if stamps == [] then [] else InsertNewestFirst(stamps[0], SortNewestFirst(stamps[1..]))
  }

  lemma {:induction false} SortSorts(stamps: seq<Stamp>)
    ensures NewestFirst(SortNewestFirst(stamps))
    ensures multiset(SortNewestFirst(stamps)) == multiset(stamps)
    ensures Elements(SortNewestFirst(stamps)) == Elements(stamps)
  {
    if stamps != [] {
      SortSorts(stamps[1..]);
      InsertionSorts(stamps[0], SortNewestFirst(stamps[1..]));
      InsertionAdds(stamps[0], SortNewestFirst(stamps[1..]));
      assert stamps == [stamps[0]] + stamps[1..];
    }
  }

  lemma SortKeepsDistinct(stamps: seq<Stamp>)
    requires Distinct(stamps)
    ensures Distinct(SortNewestFirst(stamps))
  {
    var sorted := SortNewestFirst(stamps);
    SortSorts(stamps);
    DistinctSize(stamps);
    assert |sorted| == |multiset(sorted)| == |multiset(stamps)| == |stamps|;
    SizeDistinct(sorted);
  }

  lemma {:induction false} SizeDistinct(s: seq<Stamp>)
    requires |Elements(s)| >= |s|
    ensures Distinct(s)
  {
    if s != [] {
      var last := |s| - 1;
      assert s == s[..last] + [s[last]];
      assert Elements(s) == Elements(s[..last]) + {s[last]};
      ElementsAtMost(s[..last]);
      SizeDistinct(s[..last]);
    }
  }

  lemma {:induction false} ElementsAtMost(s: seq<Stamp>)
    ensures |Elements(s)| <= |s|
  {
    if s != [] {
      var last := |s| - 1;
      ElementsAtMost(s[..last]);
      assert s == s[..last] + [s[last]];
      assert Elements(s) == Elements(s[..last]) + {s[last]};
    }
  }

  ghost function Buckets<B>(s: seq<Stamp>, bucketOf: Stamp -> B): set<B> {
    set t | t in s :: bucketOf(t)
  }

  lemma NoBuckets<B>(s: seq<Stamp>, bucketOf: Stamp -> B)
    requires s == []
    ensures Buckets(s, bucketOf) == {}
  {
  }

  /** In a newest-first list, everything newer than an entry stands before it. */
  lemma NewerStandsBefore(sorted: seq<Stamp>, i: nat)
    requires NewestFirst(sorted) && i < |sorted|
    ensures Newer(Elements(sorted), sorted[i]) <= Elements(sorted[..i])
  {
    forall t | t in Newer(Elements(sorted), sorted[i])
      ensures t in sorted[..i]
    {
      var j :| 0 <= j < |sorted| && sorted[j] == t;
      assert sorted[..i][j] == t;
    }
  }

  lemma FirstOfItsBucket<B>(sorted: seq<Stamp>, bucketOf: Stamp -> B, i: nat)
    requires NewestFirst(sorted) && i < |sorted|
    requires bucketOf(sorted[i]) !in Buckets(sorted[..i], bucketOf)
    ensures Leads(Elements(sorted), bucketOf, sorted[i])
    ensures NewerBuckets(Elements(sorted), bucketOf, sorted[i]) == Buckets(sorted[..i], bucketOf)
  {
    var S, s := Elements(sorted), sorted[i];
    NewerStandsBefore(sorted, i);
    forall t | t in sorted[..i]
      ensures t in Newer(S, s)
    {
      assert bucketOf(t) in Buckets(sorted[..i], bucketOf);
      var j :| 0 <= j < i && sorted[j] == t;
    }
    assert forall t :: t in S && s.ms < t.ms ==> t in Newer(S, s);
  }

  lemma RepeatedBucket<B(!new)>(sorted: seq<Stamp>, bucketOf: Stamp -> B, count: int, i: nat)
    requires NewestFirst(sorted) && i < |sorted|
    requires bucketOf(sorted[i]) in Buckets(sorted[..i], bucketOf)
    ensures sorted[i] in Tier(Elements(sorted), bucketOf, count) ==> sorted[i] in sorted[..i]
  {
    var t :| t in sorted[..i] && bucketOf(t) == bucketOf(sorted[i]);
    var j :| 0 <= j < i && sorted[j] == t;
    assert t in Elements(sorted);
  }

  lemma PastTheLimit<B(!new)>(sorted: seq<Stamp>, bucketOf: Stamp -> B, count: int, i: nat)
    requires NewestFirst(sorted) && i < |sorted|
    requires bucketOf(sorted[i]) !in Buckets(sorted[..i], bucketOf) && |Buckets(sorted[..i], bucketOf)| >= count
    ensures Tier(Elements(sorted), bucketOf, count) <= Elements(sorted[..i])
  {
    var S := Elements(sorted);
    FirstOfItsBucket(sorted, bucketOf, i);
    forall j | i <= j < |sorted|
      ensures sorted[j] !in Tier(S, bucketOf, count)
    {
      SubsetSize(NewerBuckets(S, bucketOf, sorted[i]), NewerBuckets(S, bucketOf, sorted[j]));
    }
    TierSubset(S, bucketOf, count);
    hide Tier;
    forall u | u in Tier(S, bucketOf, count)
      ensures u in sorted[..i]
    {
      var j :| 0 <= j < |sorted| && sorted[j] == u;
      assert sorted[..i][j] == u;
    }
  }

  lemma WithinTheLimit<B(!new)>(sorted: seq<Stamp>, bucketOf: Stamp -> B, count: int, i: nat)
    requires NewestFirst(sorted) && i < |sorted|
    requires bucketOf(sorted[i]) !in Buckets(sorted[..i], bucketOf) && |Buckets(sorted[..i], bucketOf)| < count
    ensures sorted[i] in Tier(Elements(sorted), bucketOf, count)
  {
    FirstOfItsBucket(sorted, bucketOf, i);
  }

  lemma OneMoreBucket<B>(sorted: seq<Stamp>, bucketOf: Stamp -> B, i: nat)
    requires i < |sorted|
    ensures Buckets(sorted[..i + 1], bucketOf) == Buckets(sorted[..i], bucketOf) + {bucketOf(sorted[i])}
    ensures Elements(sorted[..i + 1]) == Elements(sorted[..i]) + {sorted[i]}
  {
    assert sorted[..i + 1] == sorted[..i] + [sorted[i]];
  }

  /** The newest backup of each of the most recent `count` buckets, found in one newest-first pass. */
  method KeepPerBucket<B(==, !new)>(sorted: seq<Stamp>, bucketOf: Stamp -> B, count: int) returns (kept: set<Stamp>)
    requires NewestFirst(sorted)
    ensures kept == Tier(Elements(sorted), bucketOf, count)
  {
    kept := {};
    ghost var tier := Tier(Elements(sorted), bucketOf, count);
    if count <= 0 {
      return;
    }
    TierSubset(Elements(sorted), bucketOf, count);
    hide Tier, NewestFirst, Buckets;
    var seen: set<B> := {};
    assert Buckets(sorted[..0], bucketOf) == {} by {
      NoBuckets(sorted[..0], bucketOf);
    }
    for i := 0 to |sorted|
      invariant seen == Buckets(sorted[..i], bucketOf)
      invariant kept == tier * Elements(sorted[..i])
    {
      OneMoreBucket(sorted, bucketOf, i);
      var b := bucketOf(sorted[i]);
      if b in seen {
        RepeatedBucket(sorted, bucketOf, count, i);
        continue;
      }
      if |seen| >= count {
        PastTheLimit(sorted, bucketOf, count, i);
        return;
      }
      WithinTheLimit(sorted, bucketOf, count, i);
      seen := seen + {b};
      kept := kept + {sorted[i]};
    }
    assert sorted[..|sorted|] == sorted;
  }

  /** The first entries of a newest-first list, as a set. */
  function Newcomers(sorted: seq<Stamp>, count: int): set<Stamp> {
    Elements(sorted[..if count < 0 then 0 else if count < |sorted| then count else |sorted|])
  }

  /** Without repeats, an entry's position counts the newer ones. */
  lemma PositionIsRank(sorted: seq<Stamp>, i: nat)
    requires NewestFirst(sorted) && Distinct(sorted) && i < |sorted|
    ensures |NewerBuckets(Elements(sorted), Self, sorted[i])| == i && Leads(Elements(sorted), Self, sorted[i])
  {
    assert NewerBuckets(Elements(sorted), Self, sorted[i]) == Elements(sorted[..i]);
    DistinctSize(sorted[..i]);
  }

  lemma NewcomersAreATier(sorted: seq<Stamp>, count: int)
    requires NewestFirst(sorted) && Distinct(sorted)
    ensures Newcomers(sorted, count) == Tier(Elements(sorted), Self, count)
  {
    var S := Elements(sorted);
    forall i | 0 <= i < |sorted|
      ensures |NewerBuckets(S, Self, sorted[i])| == i && Leads(S, Self, sorted[i])
    {
      PositionIsRank(sorted, i);
    }
    hide Leads, NewerBuckets, NewestFirst, Distinct;
    forall s | s in Tier(S, Self, count)
      ensures s in Newcomers(sorted, count)
    {
      var i :| 0 <= i < |sorted| && sorted[i] == s;
    }
    var cut := if count < 0 then 0 else if count < |sorted| then count else |sorted|;
    forall s | s in Newcomers(sorted, count)
      ensures s in Tier(S, Self, count)
    {
      var i :| 0 <= i < cut && sorted[..cut][i] == s;
      assert sorted[i] == s;
    }
  }

  /** The stamps to retain. Repeated stamps are tolerated: they use up the `recent` allowance. */
  method SelectKeep(stamps: seq<Stamp>, p: Policy, c: Calendar) returns (keep: set<Stamp>)
    ensures keep == Newcomers(SortNewestFirst(stamps), p.recent) + Tier(Elements(stamps), c.week, p.weekly)
                    + Tier(Elements(stamps), c.month, p.monthly) + Tier(Elements(stamps), c.year, p.yearly)
    ensures Distinct(stamps) ==> keep == Keep(Elements(stamps), p, c)
  {
    hide Tier, NewestFirst, SortNewestFirst;
    var sorted := SortNewestFirst(stamps);
    SortSorts(stamps);
    keep := {};
    var limit := if p.recent < |sorted| then p.recent else |sorted|;
    var i := 0;
    while i < limit
      invariant 0 <= i && (i <= limit || (i == 0 && limit < 0))
      invariant keep == Elements(sorted[..i])
    {
      assert sorted[..i + 1] == sorted[..i] + [sorted[i]];
      keep := keep + {sorted[i]};
      i := i + 1;
    }
    assert keep == Newcomers(sorted, p.recent);
    var weekly := KeepPerBucket(sorted, c.week, p.weekly);
    var monthly := KeepPerBucket(sorted, c.month, p.monthly);
    var yearly := KeepPerBucket(sorted, c.year, p.yearly);
    keep := keep + weekly + monthly + yearly;
    if Distinct(stamps) {
      SortKeepsDistinct(stamps);
      NewcomersAreATier(sorted, p.recent);
    }
  }

  // ------------------------------------------------------------------ histories of the target

  /**
   * One event at the backup target. A prune works on a full listing or on an empty one (a failed
   * listing reads as empty), and `deleted` are the files its delete requests really removed.
   */
  datatype Event = Upload(stamp: Stamp) | Prune(listed: bool, deleted: set<Stamp>)

  ghost predicate Possible(store: set<Stamp>, e: Event, p: Policy, c: Calendar) {
    match e
    case Upload(_) => true
    case Prune(listed, deleted) =>
      var shown := if listed then store else {};
      deleted <= shown - Keep(shown, p, c)
  }

  function After(store: set<Stamp>, e: Event): set<Stamp> {
    match e
    case Upload(stamp) => store + {stamp}
    case Prune(_, deleted) => store - deleted
  }

  function Store(events: seq<Event>): set<Stamp> {
    if events == [] then {} else After(Store(events[..|events| - 1]), events[|events| - 1])
  }

  function Uploaded(events: seq<Event>): set<Stamp> {
    if events == [] then {}
    else
      var e := events[|events| - 1];
      Uploaded(events[..|events| - 1]) + if e.Upload? then {e.stamp} else {}
  }

  ghost predicate History(events: seq<Event>, p: Policy, c: Calendar) {
    forall i :: 0 <= i < |events| ==> Possible(Store(events[..i]), events[i], p, c)
  }

  /** The target lies between the selection from the whole past and the whole past. */
  ghost predicate Retained(uploaded: set<Stamp>, store: set<Stamp>, p: Policy, c: Calendar) {
    Keep(uploaded, p, c) <= store <= uploaded
  }

  lemma UploadRetains(uploaded: set<Stamp>, store: set<Stamp>, stamp: Stamp, p: Policy, c: Calendar)
    requires Retained(uploaded, store, p, c)
    ensures Retained(uploaded + {stamp}, store + {stamp}, p, c)
  {
    KeepHeredity(uploaded, uploaded + {stamp}, p, c);
    KeepSubset(uploaded + {stamp}, p, c);
    var keep, keepAfter := Keep(uploaded, p, c), Keep(uploaded + {stamp}, p, c);
    hide Keep;
    assert keepAfter * uploaded <= keep;
  }

  lemma PruneRetains(uploaded: set<Stamp>, store: set<Stamp>, deleted: set<Stamp>, p: Policy, c: Calendar)
    requires Retained(uploaded, store, p, c)
    requires deleted !! Keep(store, p, c)
    ensures Retained(uploaded, store - deleted, p, c)
  {
    KeepOutcast(uploaded, store, p, c);
    hide Keep;
  }

  /**
   * Whatever the order of uploads and prunes, and whichever listings and deletes failed, the target
   * holds everything that retention selects from all backups ever made, and nothing else but backups.
   */
  lemma {:induction false} RetainedForever(events: seq<Event>, p: Policy, c: Calendar)
    requires History(events, p, c)
    ensures Retained(Uploaded(events), Store(events), p, c)
  {
    hide Keep;
    if events != [] {
      var past := events[..|events| - 1];
      var e := events[|events| - 1];
      assert forall i :: 0 <= i < |past| ==> past[..i] == events[..i] && past[i] == events[i];
      RetainedForever(past, p, c);
      match e {
        case Upload(stamp) =>
          UploadRetains(Uploaded(past), Store(past), stamp, p, c);
        case Prune(listed, deleted) =>
          assert Possible(Store(past), e, p, c);
          PruneRetains(Uploaded(past), Store(past), deleted, p, c);
          assert Uploaded(events) == Uploaded(past);
      }
    } else {
      KeepSubset({}, p, c);
    }
  }

  /** A prune that sees the target and whose deletes all succeed leaves exactly the selection. */
  lemma CompletePruneIsExact(events: seq<Event>, deleted: set<Stamp>, p: Policy, c: Calendar)
    requires History(events, p, c)
    requires deleted == Store(events) - Keep(Store(events), p, c)
    ensures Store(events + [Prune(true, deleted)]) == Keep(Uploaded(events), p, c)
  {
    var after := events + [Prune(true, deleted)];
    assert after[..|events|] == events;
    RetainedForever(events, p, c);
    KeepOutcast(Uploaded(events), Store(events), p, c);
  }

  /** The result of one delete request. A rejected request is not noticed; a broken one aborts. */
  datatype Deletion = Deleted | Rejected | Broken

  /** An entry whose delete request is sent: `keep` lacks it, and no request broke before it. */
  ghost predicate Requested(entries: seq<Stamp>, keep: set<Stamp>, outcome: Stamp -> Deletion, i: nat)
    requires i < |entries|
  {
    entries[i] !in keep && forall j :: 0 <= j < i && entries[j] !in keep ==> outcome(entries[j]) != Broken
  }

  /** What goes: the entries whose request is sent and takes effect. */
  ghost predicate Goes(entries: seq<Stamp>, keep: set<Stamp>, outcome: Stamp -> Deletion, s: Stamp) {
    exists i :: 0 <= i < |entries| && entries[i] == s && Requested(entries, keep, outcome, i) && outcome(s) == Deleted
  }

  lemma NothingGoes(keep: set<Stamp>, outcome: Stamp -> Deletion)
    ensures forall s :: !Goes([], keep, outcome, s)
  {
  }

  lemma OneMoreGoes(entries: seq<Stamp>, keep: set<Stamp>, outcome: Stamp -> Deletion, i: nat)
    requires i < |entries| && forall j :: 0 <= j < i && entries[j] !in keep ==> outcome(entries[j]) != Broken
    ensures forall s :: (Goes(entries[..i + 1], keep, outcome, s)
                         <==> Goes(entries[..i], keep, outcome, s) || (s == entries[i] && s !in keep && outcome(s) == Deleted))
  {
    forall s
      ensures Goes(entries[..i + 1], keep, outcome, s)
         <==> Goes(entries[..i], keep, outcome, s) || (s == entries[i] && s !in keep && outcome(s) == Deleted)
    {
      if Goes(entries[..i], keep, outcome, s) {
        var k :| 0 <= k < i && entries[..i][k] == s && Requested(entries[..i], keep, outcome, k) && outcome(s) == Deleted;
        assert entries[..i + 1][k] == s && Requested(entries[..i + 1], keep, outcome, k);
      }
      if s == entries[i] && s !in keep && outcome(s) == Deleted {
        assert entries[..i + 1][i] == s && Requested(entries[..i + 1], keep, outcome, i);
      }
      if Goes(entries[..i + 1], keep, outcome, s) {
        var k :| 0 <= k < i + 1 && entries[..i + 1][k] == s && Requested(entries[..i + 1], keep, outcome, k) && outcome(s) == Deleted;
        assert k < i ==> entries[..i][k] == s && Requested(entries[..i], keep, outcome, k);
      }
    }
  }

  /** After a broken request no other is sent. */
  lemma BrokenEnds(entries: seq<Stamp>, keep: set<Stamp>, outcome: Stamp -> Deletion, i: nat)
    requires i < |entries| && entries[i] !in keep && outcome(entries[i]) == Broken
    requires forall j :: 0 <= j < i && entries[j] !in keep ==> outcome(entries[j]) != Broken
    ensures forall s :: Goes(entries, keep, outcome, s) <==> Goes(entries[..i], keep, outcome, s)
  {
    forall s
      ensures Goes(entries, keep, outcome, s) <==> Goes(entries[..i], keep, outcome, s)
    {
      if Goes(entries[..i], keep, outcome, s) {
        var k :| 0 <= k < i && entries[..i][k] == s && Requested(entries[..i], keep, outcome, k) && outcome(s) == Deleted;
        assert entries[k] == s && Requested(entries, keep, outcome, k);
      }
      if Goes(entries, keep, outcome, s) {
        var k :| 0 <= k < |entries| && entries[k] == s && Requested(entries, keep, outcome, k) && outcome(s) == Deleted;
        assert k < i;
        assert entries[..i][k] == s && Requested(entries[..i], keep, outcome, k);
      }
    }
  }

  lemma GoesIsListed(entries: seq<Stamp>, keep: set<Stamp>, outcome: Stamp -> Deletion)
    ensures forall s :: Goes(entries, keep, outcome, s) ==> s in entries && s !in keep
  {
  }

  lemma AllUnkeptGo(entries: seq<Stamp>, keep: set<Stamp>, outcome: Stamp -> Deletion)
    requires forall s :: s in entries ==> outcome(s) == Deleted
    ensures forall s :: s in entries && s !in keep ==> Goes(entries, keep, outcome, s)
  {
    forall s | s in entries && s !in keep
      ensures Goes(entries, keep, outcome, s)
    {
      var i :| 0 <= i < |entries| && entries[i] == s;
      assert Requested(entries, keep, outcome, i);
    }
  }

  /** No request that a prune of these backups sends breaks. */
  ghost predicate NothingBreaks(stamps: set<Stamp>, p: Policy, c: Calendar, outcome: Stamp -> Deletion) {
    forall s :: s in stamps && s !in Keep(stamps, p, c) ==> outcome(s) != Broken
  }

  /** How a backup goes: whether each upload and the listing succeed, and each delete request. */
  datatype Attempt = Attempt(stored: bool, latestStored: bool, listed: bool, outcome: Stamp -> Deletion)

  /** The timestamped files at the backup target. */
  class Target {
    var stamps: set<Stamp>
    ghost var uploaded: set<Stamp>
    const policy: Policy
    const calendar: Calendar

    /** Nothing that retention selects from the whole past is missing, and nothing is invented. */
    ghost predicate Valid()
      reads this
    {
      Retained(uploaded, stamps, policy, calendar)
    }

    constructor (policy: Policy, calendar: Calendar)
      ensures Valid() && stamps == uploaded == {} && this.policy == policy && this.calendar == calendar
    {
      this.policy, this.calendar := policy, calendar;
      stamps, uploaded := {}, {};
    }

    /**
     * Delete every listed backup that `keep` lacks, stopping at a broken request. `outcome` tells how
     * each request goes.
     */
    method DeleteOthers(entries: seq<Stamp>, keep: set<Stamp>, outcome: Stamp -> Deletion) returns (completed: bool)
      modifies this`stamps
      // exactly the entries whose request took effect are gone
      ensures forall s :: s in stamps <==> s in old(stamps) && !Goes(entries, keep, outcome, s)
      ensures completed <==> forall s :: s in entries && s !in keep ==> outcome(s) != Broken
    {
      hide Goes, Requested;
      NothingGoes(keep, outcome);
      assert entries[..0] == [];
      for i := 0 to |entries|
        invariant forall s :: s in stamps <==> s in old(stamps) && !Goes(entries[..i], keep, outcome, s)
        invariant forall j :: 0 <= j < i && entries[j] !in keep ==> outcome(entries[j]) != Broken
      {
        hide Goes, Requested;
        OneMoreGoes(entries, keep, outcome, i);
        if entries[i] !in keep {
          if outcome(entries[i]) == Broken {
            assert entries[i] in entries;
            BrokenEnds(entries, keep, outcome, i);
            return false;
          }
          if outcome(entries[i]) == Deleted {
            stamps := stamps - {entries[i]};
          }
        }
      }
      assert entries[..|entries|] == entries;
      return true;
    }

    /** Drop what the selection from the listing does not keep. */
    method PruneBackups(entries: seq<Stamp>, outcome: Stamp -> Deletion) returns (completed: bool)
      requires Valid() && Distinct(entries)
      requires entries == [] || Elements(entries) == stamps
      modifies this`stamps
      ensures Valid() && Keep(old(stamps), policy, calendar) <= stamps <= old(stamps)
      // an empty listing is left alone; otherwise exactly the unkept entries go whose request takes effect
      ensures entries == [] ==> completed && stamps == old(stamps)
      ensures forall s :: s in stamps <==> s in old(stamps) && !Goes(entries, Keep(old(stamps), policy, calendar), outcome, s)
      ensures entries != [] ==>
                (completed <==> forall s :: s in old(stamps) && s !in Keep(old(stamps), policy, calendar) ==> outcome(s) != Broken)
      // when every request takes effect, the selection from the whole past is left
      ensures entries != [] && (forall s :: s in entries ==> outcome(s) == Deleted) ==>
                completed && stamps == Keep(uploaded, policy, calendar)
    {
      var keep := SelectKeep(entries, policy, calendar);
      KeepOutcast(uploaded, stamps, policy, calendar);
      KeepSubset(Elements(entries), policy, calendar);
      KeepSubset(stamps, policy, calendar);
      hide Keep, Goes;
      ghost var before := stamps;
      GoesIsListed(entries, keep, outcome);
      if entries == [] {
        NothingGoes(Keep(before, policy, calendar), outcome);
      }
      completed := DeleteOthers(entries, keep, outcome);
      if entries != [] && forall s :: s in entries ==> outcome(s) == Deleted {
        AllUnkeptGo(entries, keep, outcome);
        assert stamps == keep;
      }
    }

    /** One backup: upload under a new stamp, then prune whatever the listing shows. */
    method BackupNow(stamp: Stamp, run: Attempt) returns (ok: bool)
      requires Valid()
      modifies this
      ensures Valid()
      // the new backup is there as soon as its upload succeeds, and it succeeds when nothing breaks
      ensures uploaded == if run.stored then old(uploaded) + {stamp} else old(uploaded)
      ensures ok <==> run.stored && run.latestStored && (run.listed ==> NothingBreaks(old(stamps) + {stamp}, policy, calendar, run.outcome))
      ensures !run.stored ==> stamps == old(stamps)
      ensures run.stored && !(run.latestStored && run.listed) ==> stamps == old(stamps) + {stamp}
      ensures Keep(uploaded, policy, calendar) <= stamps <= old(stamps) + {stamp}
      // without a failure exactly the selection from the whole past is left
      ensures run.stored && run.latestStored && run.listed && (forall s :: s in old(stamps) + {stamp} ==> run.outcome(s) == Deleted) ==>
                ok && stamps == Keep(uploaded, policy, calendar)
    {
      if !run.stored {
        return false;
      }
      UploadRetains(uploaded, stamps, stamp, policy, calendar);
      stamps, uploaded := stamps + {stamp}, uploaded + {stamp};
      hide Keep, Goes;
      if !run.latestStored {
        return false;
      }
      var entries := List(run.listed);
      ok := PruneBackups(entries, run.outcome);
    }

    /** The listing of the target; a failed listing reads as an empty one. */
    method List(reachable: bool) returns (entries: seq<Stamp>)
      ensures Distinct(entries) && (if reachable then Elements(entries) == stamps else entries == [])
    {
      entries := [];
      if reachable {
        var left := stamps;
        while left != {}
          invariant left <= stamps && Distinct(entries) && Elements(entries) == stamps - left
          decreases |left|
        {
          var s :| s in left;
          assert Elements(entries + [s]) == Elements(entries) + {s};
          entries, left := entries + [s], left - {s};
        }
      }
    }
  }
}
