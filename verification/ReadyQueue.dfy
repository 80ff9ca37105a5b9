/** The ready list: read bucket by bucket, batch by batch, yet equal to one sort of everything ready. */
module ReadyQueue {
  import opened Wrappers

  // A work item that passed the database filter; `ready` is the outcome of its delivery readiness check.
  datatype Issue = Issue(identifier: nat, priority: int, updatedAt: int, ready: bool)

  const READY_PRIORITY_ORDER := [1, 2, 3, 4, 0]
  const DEFAULT_READY_WORK_FIRST := 20
  const MAX_READY_WORK_FIRST := 200
  const BATCH := 50

  function Rank(priority: int): nat {
    if priority == 1 then 0 else if priority == 2 then 1 else if priority == 3 then 2
    else if priority == 4 then 3 else if priority == 0 then 4 else 5
  }

  /** Newest first, then by identifier: the order every bucket is read in. */
  predicate NewerFirst(a: Issue, b: Issue) {
    a.updatedAt > b.updatedAt || (a.updatedAt == b.updatedAt && a.identifier < b.identifier)
  }

  /** compareReadyWork is negative. */
  predicate Before(a: Issue, b: Issue) {
    Rank(a.priority) < Rank(b.priority) || (Rank(a.priority) == Rank(b.priority) && NewerFirst(a, b))
  }

  function ClampFirst(first: Option<int>): nat {
    if first.None? || first.value < 1 then DEFAULT_READY_WORK_FIRST else Min(first.value, MAX_READY_WORK_FIRST)
  }

  datatype Bucket = Exactly(priority: int) | Other

  predicate InBucket(b: Bucket, x: Issue) {
    match b
    case Exactly(p) => x.priority == p
    case Other => x.priority !in READY_PRIORITY_ORDER
  }

  function Buckets(priority: Option<int>): seq<Bucket> {
    if priority.Some? then [Exactly(priority.value)]
    else [Exactly(1), Exactly(2), Exactly(3), Exactly(4), Exactly(0), Other]
  }

  function Select(rows: seq<Issue>, b: Bucket): seq<Issue> {
    if rows == [] then [] else (if InBucket(b, rows[0]) then [rows[0]] else []) + Select(rows[1..], b)
  }

  function ReadyOf(rows: seq<Issue>): seq<Issue> {
    if rows == [] then [] else (if rows[0].ready then [rows[0]] else []) + ReadyOf(rows[1..])
  }

  /** All ready items, bucket after bucket. */
  function InBuckets(rows: seq<Issue>, buckets: seq<Bucket>): seq<Issue> {
    if buckets == [] then [] else ReadyOf(Select(rows, buckets[0])) + InBuckets(rows, buckets[1..])
  }

  function Take(s: seq<Issue>, n: nat): seq<Issue> { if |s| <= n then s else s[..n] }

  ghost predicate SortedBy(s: seq<Issue>, less: (Issue, Issue) -> bool) {
    forall i, j :: 0 <= i < j < |s| ==> less(s[i], s[j])
  }

  /** The listing is in order of compareReadyWork and holds exactly the ready items asked for. */
  ghost predicate IsReadyListing(s: seq<Issue>, rows: seq<Issue>, priority: Option<int>) {
    && SortedBy(s, Before)
    && forall x :: x in s <==> x in rows && x.ready && (priority.Some? ==> x.priority == priority.value)
  }

  /** Identifiers are unique. */
  ghost predicate DistinctIds(rows: seq<Issue>) {
    forall i, j :: 0 <= i < j < |rows| ==> rows[i].identifier != rows[j].identifier
  }

  // -------------------------------------------------------------- list lemmas

  lemma {:induction false} ReadyAppend(a: seq<Issue>, b: seq<Issue>)
    ensures ReadyOf(a + b) == ReadyOf(a) + ReadyOf(b)
    decreases |a|
  {
    if a == [] {
      assert a + b == b;
    } else {
      assert (a + b)[1..] == a[1..] + b;
      ReadyAppend(a[1..], b);
    }
  }

  lemma {:induction false} SelectMembers(rows: seq<Issue>, b: Bucket, x: Issue)
    ensures x in Select(rows, b) <==> x in rows && InBucket(b, x)
    decreases |rows|
  {
    if rows != [] {
      SelectMembers(rows[1..], b, x);
      assert x in rows <==> x == rows[0] || x in rows[1..];
    }
  }

  lemma {:induction false} ReadyMembers(rows: seq<Issue>, x: Issue)
    ensures x in ReadyOf(rows) <==> x in rows && x.ready
    decreases |rows|
  {
    if rows != [] {
      ReadyMembers(rows[1..], x);
      assert x in rows <==> x == rows[0] || x in rows[1..];
    }
  }

  lemma {:induction false} SelectSorted(rows: seq<Issue>, b: Bucket)
    requires SortedBy(rows, NewerFirst)
    ensures SortedBy(Select(rows, b), NewerFirst)
    decreases |rows|
  {
    if rows != [] {
      assert SortedBy(rows[1..], NewerFirst) by {
        forall i, j | 0 <= i < j < |rows[1..]|
          ensures NewerFirst(rows[1..][i], rows[1..][j])
        {
          assert NewerFirst(rows[i + 1], rows[j + 1]);
        }
      }
      SelectSorted(rows[1..], b);
      var rest := Select(rows[1..], b);
      forall j | 0 <= j < |rest|
        ensures NewerFirst(rows[0], rest[j])
      {
        SelectMembers(rows[1..], b, rest[j]);
        var k :| 0 <= k < |rows[1..]| && rows[1..][k] == rest[j];
        assert NewerFirst(rows[0], rows[k + 1]);
      }
    }
  }

  lemma {:induction false} ReadySorted(rows: seq<Issue>)
    requires SortedBy(rows, NewerFirst)
    ensures SortedBy(ReadyOf(rows), NewerFirst)
    decreases |rows|
  {
    if rows != [] {
      assert SortedBy(rows[1..], NewerFirst) by {
        forall i, j | 0 <= i < j < |rows[1..]|
          ensures NewerFirst(rows[1..][i], rows[1..][j])
        {
          assert NewerFirst(rows[i + 1], rows[j + 1]);
        }
      }
      ReadySorted(rows[1..]);
      var rest := ReadyOf(rows[1..]);
      forall j | 0 <= j < |rest|
        ensures NewerFirst(rows[0], rest[j])
      {
        ReadyMembers(rows[1..], rest[j]);
        var k :| 0 <= k < |rows[1..]| && rows[1..][k] == rest[j];
        assert NewerFirst(rows[0], rows[k + 1]);
      }
    }
  }

  // --------------------------------------------------- one sort, any page size

  ghost function BucketRank(b: Bucket): nat {
    match b
    case Exactly(p) => Rank(p)
    case Other => 5
  }

  lemma BucketHasRank(b: Bucket, x: Issue)
    requires InBucket(b, x)
    ensures Rank(x.priority) == BucketRank(b)
  {
    if b.Other? {
      assert x.priority != READY_PRIORITY_ORDER[0] && x.priority != READY_PRIORITY_ORDER[1] && x.priority != READY_PRIORITY_ORDER[2]
          && x.priority != READY_PRIORITY_ORDER[3] && x.priority != READY_PRIORITY_ORDER[4];
    }
  }

  ghost predicate RanksRise(buckets: seq<Bucket>) {
    forall i, j :: 0 <= i < j < |buckets| ==> BucketRank(buckets[i]) < BucketRank(buckets[j])
  }

  lemma {:induction false} InBucketsMembers(rows: seq<Issue>, buckets: seq<Bucket>, x: Issue)
    ensures x in InBuckets(rows, buckets) <==> x in rows && x.ready && exists k :: 0 <= k < |buckets| && InBucket(buckets[k], x)
    decreases |buckets|
  {
    if buckets != [] {
      InBucketsMembers(rows, buckets[1..], x);
      ReadyMembers(Select(rows, buckets[0]), x);
      SelectMembers(rows, buckets[0], x);
      if k :| 0 <= k < |buckets| && InBucket(buckets[k], x) {
        assert k > 0 ==> buckets[1..][k - 1] == buckets[k];
      }
      if k :| 0 <= k < |buckets[1..]| && InBucket(buckets[1..][k], x) {
        assert buckets[k + 1] == buckets[1..][k];
      }
    }
  }

  lemma {:induction false} InBucketsSorted(rows: seq<Issue>, buckets: seq<Bucket>)
    requires SortedBy(rows, NewerFirst) && RanksRise(buckets)
    ensures SortedBy(InBuckets(rows, buckets), Before)
    decreases |buckets|
  {
    if buckets != [] {
      var head, tail := ReadyOf(Select(rows, buckets[0])), InBuckets(rows, buckets[1..]);
      assert RanksRise(buckets[1..]) by {
        forall i, j | 0 <= i < j < |buckets[1..]|
          ensures BucketRank(buckets[1..][i]) < BucketRank(buckets[1..][j])
        {
          assert buckets[1..][i] == buckets[i + 1] && buckets[1..][j] == buckets[j + 1];
        }
      }
      InBucketsSorted(rows, buckets[1..]);
      SelectSorted(rows, buckets[0]);
      ReadySorted(Select(rows, buckets[0]));
      forall i | 0 <= i < |head|
        ensures Rank(head[i].priority) == BucketRank(buckets[0])
      {
        ReadyMembers(Select(rows, buckets[0]), head[i]);
        SelectMembers(rows, buckets[0], head[i]);
        BucketHasRank(buckets[0], head[i]);
      }
      forall j | 0 <= j < |tail|
        ensures Rank(tail[j].priority) > BucketRank(buckets[0])
      {
        InBucketsMembers(rows, buckets[1..], tail[j]);
        var k :| 0 <= k < |buckets[1..]| && InBucket(buckets[1..][k], tail[j]);
        BucketHasRank(buckets[1..][k], tail[j]);
        assert buckets[1..][k] == buckets[k + 1];
      }
      SortedConcat(head, tail);
    }
  }

  lemma SortedConcat(a: seq<Issue>, b: seq<Issue>)
    requires SortedBy(a, NewerFirst) && SortedBy(b, Before)
    requires forall i, j :: 0 <= i < |a| && 0 <= j < |a| ==> Rank(a[i].priority) == Rank(a[j].priority)
    requires forall i, j :: 0 <= i < |a| && 0 <= j < |b| ==> Rank(a[i].priority) < Rank(b[j].priority)
    ensures SortedBy(a + b, Before)
  {
    forall i, j | 0 <= i < j < |a + b|
      ensures Before((a + b)[i], (a + b)[j])
    {
      if j < |a| {
        assert NewerFirst(a[i], a[j]);
      } else if i < |a| {
        assert Rank(a[i].priority) < Rank(b[j - |a|].priority);
      } else {
        assert Before(b[i - |a|], b[j - |a|]);
      }
    }
  }

  lemma BucketsCover(priority: Option<int>, x: Issue)
    ensures RanksRise(Buckets(priority))
    ensures (exists k :: 0 <= k < |Buckets(priority)| && InBucket(Buckets(priority)[k], x)) <==> (priority.Some? ==> x.priority == priority.value)
  {
    var bs := Buckets(priority);
    if priority.Some? {
      assert InBucket(bs[0], x) <==> x.priority == priority.value;
    } else if x.priority in READY_PRIORITY_ORDER {
      var k :| 0 <= k < 5 && READY_PRIORITY_ORDER[k] == x.priority;
      assert bs[k] == Exactly(x.priority) && InBucket(bs[k], x);
    } else {
      assert InBucket(bs[5], x);
    }
  }

  /** Two listings of the same items in the same strict order are the same listing. */
  lemma {:induction false} ListingUnique(a: seq<Issue>, b: seq<Issue>)
    requires SortedBy(a, Before) && SortedBy(b, Before) && forall x :: x in a <==> x in b
    ensures a == b
    decreases |a|
  {
    assert b == [] || b[0] in b;
    if a != [] {
      assert a[0] in b;
      var j :| 0 <= j < |b| && b[j] == a[0];
      assert b[0] in a;
      var i :| 0 <= i < |a| && a[i] == b[0];
      assert i == 0 || Before(a[0], a[i]);
      assert a[0] == b[0];
      forall x
        ensures x in a[1..] <==> x in b[1..]
      {
        TailMembers(a, x);
        TailMembers(b, x);
      }
      TailSorted(a);
      TailSorted(b);
      ListingUnique(a[1..], b[1..]);
      assert a == [a[0]] + a[1..] && b == [b[0]] + b[1..];
    }
  }

  lemma TailMembers(s: seq<Issue>, x: Issue)
    requires s != [] && SortedBy(s, Before)
    ensures x in s[1..] <==> x in s && x != s[0]
  {
    if x in s[1..] {
      var i :| 0 <= i < |s[1..]| && s[1..][i] == x;
      assert Before(s[0], s[i + 1]);
    }
    if x in s && x != s[0] {
      var i :| 0 <= i < |s| && s[i] == x;
      assert s[1..][i - 1] == x;
    }
  }

  lemma TailSorted(s: seq<Issue>)
    requires s != [] && SortedBy(s, Before)
    ensures SortedBy(s[1..], Before)
  {
    forall i, j | 0 <= i < j < |s[1..]|
      ensures Before(s[1..][i], s[1..][j])
    {
      assert Before(s[i + 1], s[j + 1]);
    }
  }

  /** The buckets read in order form a listing of all ready items in order of compareReadyWork. */
  lemma BucketsFormListing(rows: seq<Issue>, priority: Option<int>)
    requires SortedBy(rows, NewerFirst)
    ensures IsReadyListing(InBuckets(rows, Buckets(priority)), rows, priority)
  {
    BucketsCover(priority, Issue(0, 0, 0, false));
    InBucketsSorted(rows, Buckets(priority));
    forall x
      ensures x in InBuckets(rows, Buckets(priority)) <==> x in rows && x.ready && (priority.Some? ==> x.priority == priority.value)
    {
      InBucketsMembers(rows, Buckets(priority), x);
      BucketsCover(priority, x);
    }
  }

  /** And it is the only one. */
  lemma BucketsAreTheListing(rows: seq<Issue>, priority: Option<int>, listing: seq<Issue>)
    requires SortedBy(rows, NewerFirst) && IsReadyListing(listing, rows, priority)
    ensures InBuckets(rows, Buckets(priority)) == listing
  {
    BucketsFormListing(rows, priority);
    ListingUnique(InBuckets(rows, Buckets(priority)), listing);
  }

  // ------------------------------------------------------------- listReadyWork

  /** The cursor names the last of the first `read` rows, or nothing has been read. */
  ghost predicate CursorAt(rows: seq<Issue>, cursor: Option<nat>, read: nat) {
    read <= |rows| && cursor == if read == 0 then None else Some(rows[read - 1].identifier)
  }

  /** One database read: the rows of a bucket after the cursor, at most `take` of them. */
  method FindMany(bucketRows: seq<Issue>, cursor: Option<nat>, take: nat, ghost read: nat) returns (batch: seq<Issue>)
    requires DistinctIds(bucketRows) && CursorAt(bucketRows, cursor, read)
    ensures batch == bucketRows[read..Min(read + take, |bucketRows|)]
  {
    var start := 0;
    if cursor.Some? {
      while bucketRows[start].identifier != cursor.value
        invariant 0 <= start < read
        decreases |bucketRows| - start
      {
        start := start + 1;
      }
      start := start + 1;
    }
    batch := bucketRows[start..Min(start + take, |bucketRows|)];
  }

  /** Keep the ready items of a batch until enough are kept. */
  method ReadBatch(batch: seq<Issue>, ordered: seq<Issue>, limit: nat) returns (ordered': seq<Issue>, k: nat)
    requires |ordered| < limit
    ensures k <= |batch| && ordered' == ordered + ReadyOf(batch[..k])
    ensures |ordered'| <= limit && (|ordered'| < limit ==> k == |batch|)
  {
    ordered', k := ordered, 0;
    while k < |batch| && |ordered'| < limit
      invariant 0 <= k <= |batch| && |ordered'| <= limit
      invariant ordered' == ordered + ReadyOf(batch[..k])
    {
      ReadySnoc(batch, k);
      if batch[k].ready {
        ordered' := ordered' + [batch[k]];
      }
      k := k + 1;
    }
  }

  /** Read and keep one batch after the cursor. */
  method ReadNext(bucketRows: seq<Issue>, cursor: Option<nat>, ordered: seq<Issue>, size: nat, limit: nat, ghost read: nat)
    returns (ordered': seq<Issue>, batch: seq<Issue>, ghost k: nat)
    requires DistinctIds(bucketRows) && CursorAt(bucketRows, cursor, read) && |ordered| < limit
    ensures batch == bucketRows[read..Min(read + size, |bucketRows|)] && k <= |batch|
    ensures ordered <= ordered' && ReadyOf(bucketRows[..read]) + ordered'[|ordered|..] == ReadyOf(bucketRows[..read + k])
    ensures |ordered'| <= limit && (|ordered'| < limit ==> k == |batch|)
  {
    batch := FindMany(bucketRows, cursor, size, read);
    var kept: nat;
    ordered', kept := ReadBatch(batch, ordered, limit);
    k := kept;
    ReadUpTo(bucketRows, read, batch, k);
  }

  /** Read one bucket in batches until it is exhausted or enough items are ready. */
  method ReadBucket(bucketRows: seq<Issue>, ordered: seq<Issue>, limit: nat) returns (ordered': seq<Issue>)
    requires SortedBy(bucketRows, NewerFirst) && |ordered| < limit
    requires DistinctIds(bucketRows)
    ensures ordered' == Take(ordered + ReadyOf(bucketRows), limit)
  {
    var size: nat := Max(BATCH, limit - |ordered|);
    ordered' := ordered;
    var cursor: Option<nat> := None;
    ghost var read := 0;
    while true
      invariant CursorAt(bucketRows, cursor, read) && |ordered'| < limit
      invariant ordered' == ordered + ReadyOf(bucketRows[..read])
      decreases |bucketRows| - read
    {
      ghost var sofar := ordered';
      var batch: seq<Issue>;
      ghost var k: nat;
      ordered', batch, k := ReadNext(bucketRows, cursor, ordered', size, limit, read);
      assert ordered' == sofar + ordered'[|sofar|..];
      assert ordered' == ordered + ReadyOf(bucketRows[..read + k]);
      if |ordered'| >= limit {
        TakePrefix(ordered, bucketRows, read + k, limit);
        return;
      }
      if |batch| < size {
        assert bucketRows[..read + k] == bucketRows;
        return;
      }
      cursor := Some(batch[|batch| - 1].identifier);
      read := read + |batch|;
    }
  }

  lemma ReadUpTo(rows: seq<Issue>, read: nat, batch: seq<Issue>, k: nat)
    requires read + |batch| <= |rows| && batch == rows[read..read + |batch|] && k <= |batch|
    ensures ReadyOf(rows[..read]) + ReadyOf(batch[..k]) == ReadyOf(rows[..read + k])
  {
    assert rows[..read + k] == rows[..read] + batch[..k];
    ReadyAppend(rows[..read], batch[..k]);
  }

  lemma ReadySnoc(rows: seq<Issue>, k: nat)
    requires k < |rows|
    ensures ReadyOf(rows[..k + 1]) == ReadyOf(rows[..k]) + (if rows[k].ready then [rows[k]] else [])
  {
    assert rows[..k + 1] == rows[..k] + [rows[k]];
    ReadyAppend(rows[..k], [rows[k]]);
  }

  lemma TakePrefix(ordered: seq<Issue>, rows: seq<Issue>, k: nat, limit: nat)
    requires k <= |rows| && |ordered + ReadyOf(rows[..k])| == limit
    ensures ordered + ReadyOf(rows[..k]) == Take(ordered + ReadyOf(rows), limit)
  {
    assert rows == rows[..k] + rows[k..];
    ReadyAppend(rows[..k], rows[k..]);
    assert ordered + ReadyOf(rows) == (ordered + ReadyOf(rows[..k])) + ReadyOf(rows[k..]);
  }

  lemma {:induction false} SelectDistinct(rows: seq<Issue>, b: Bucket)
    requires DistinctIds(rows)
    ensures DistinctIds(Select(rows, b))
    decreases |rows|
  {
    if rows != [] {
      forall i, j | 0 <= i < j < |rows[1..]|
        ensures rows[1..][i].identifier != rows[1..][j].identifier
      {
        assert rows[1..][i] == rows[i + 1] && rows[1..][j] == rows[j + 1];
      }
      SelectDistinct(rows[1..], b);
      var rest := Select(rows[1..], b);
      forall j | 0 <= j < |rest|
        ensures rest[j].identifier != rows[0].identifier
      {
        SelectMembers(rows[1..], b, rest[j]);
        var k :| 0 <= k < |rows[1..]| && rows[1..][k] == rest[j];
        assert rows[k + 1] == rest[j];
      }
    }
  }

  /** Read the buckets in order until enough items are ready. */
  method ReadBuckets(rows: seq<Issue>, buckets: seq<Bucket>, limit: nat) returns (ordered: seq<Issue>)
    requires SortedBy(rows, NewerFirst) && DistinctIds(rows)
    ensures ordered == Take(InBuckets(rows, buckets), limit)
  {
    ordered := [];
    var i := 0;
    assert buckets[0..] == buckets && [] + InBuckets(rows, buckets) == InBuckets(rows, buckets);
    while i < |buckets| && |ordered| < limit
      invariant 0 <= i <= |buckets| && |ordered| <= limit
      invariant Take(ordered + InBuckets(rows, buckets[i..]), limit) == Take(InBuckets(rows, buckets), limit)
    {
      var bucketRows := Select(rows, buckets[i]);
      SelectSorted(rows, buckets[i]);
      SelectDistinct(rows, buckets[i]);
      ghost var before := ordered;
      ordered := ReadBucket(bucketRows, ordered, limit);
      assert buckets[i..][0] == buckets[i] && buckets[i..][1..] == buckets[i + 1..];
      ReadOn(before, ReadyOf(bucketRows), InBuckets(rows, buckets[i + 1..]), ordered, limit);
      i := i + 1;
    }
    assert i == |buckets| ==> ordered + InBuckets(rows, buckets[i..]) == ordered;
  }

  /** Twenty unless a number is asked for, and never more than two hundred. */
  ghost function PageSize(first: Option<int>): (n: nat)
    ensures 1 <= n <= 200
    ensures first.Some? && 1 <= first.value <= 200 ==> n == first.value
    ensures first.None? || first.value <= 0 ==> n == 20
    ensures first.Some? && first.value > 200 ==> n == 200
  {
    match first
    case Some(k) => if k <= 0 then 20 else if k > 200 then 200 else k
    case None => 20
  }

  /** Urgent work first, then high, medium and low, then work without a priority, then any other; within one rank the newest, and of one instant the smaller identifier. */
  lemma BeforeIs(a: Issue, b: Issue)
    ensures forall i, j :: 0 <= i < j < 5 && a.priority == [1, 2, 3, 4, 0][i] && b.priority == [1, 2, 3, 4, 0][j] ==> Before(a, b)
    ensures a.priority in [1, 2, 3, 4, 0] && b.priority !in [1, 2, 3, 4, 0] ==> Before(a, b) && !Before(b, a)
    ensures a.priority == b.priority || (a.priority !in [1, 2, 3, 4, 0] && b.priority !in [1, 2, 3, 4, 0]) ==>
      (Before(a, b) <==> a.updatedAt > b.updatedAt || (a.updatedAt == b.updatedAt && a.identifier < b.identifier))
  {
  }

  /**
   * The ready list of any page size: the first `first` of every ready item sorted by
   * compareReadyWork, and whether there are more. `rows` are the candidate rows as the
   * database lists them, newest first.
   */
  method ListReadyWork(rows: seq<Issue>, first: Option<int>, priority: Option<int>) returns (nodes: seq<Issue>, hasNextPage: bool)
    requires SortedBy(rows, NewerFirst) && DistinctIds(rows)
    ensures exists listing :: IsReadyListing(listing, rows, priority)
    ensures forall listing :: IsReadyListing(listing, rows, priority) ==>
      var n := PageSize(first);
      hasNextPage == (|listing| > n) && nodes == if |listing| > n then listing[..n] else listing
  {
    var n := ClampFirst(first);
    var ordered := ReadBuckets(rows, Buckets(priority), n + 1);
    ghost var all := InBuckets(rows, Buckets(priority));
    BucketsFormListing(rows, priority);
    forall listing | IsReadyListing(listing, rows, priority)
      ensures listing == all
    {
      BucketsAreTheListing(rows, priority, listing);
    }
    nodes := if |ordered| <= n then ordered else ordered[..n];
    hasNextPage := |ordered| > n;
    assert nodes == Take(all, n);
  }

  lemma ReadOn(before: seq<Issue>, bucket: seq<Issue>, rest: seq<Issue>, ordered: seq<Issue>, limit: nat)
    requires ordered == Take(before + bucket, limit)
    ensures Take(ordered + rest, limit) == Take(before + (bucket + rest), limit)
  {
    assert before + (bucket + rest) == (before + bucket) + rest;
    if |before + bucket| <= limit {
      assert ordered == before + bucket;
    } else {
      assert Take(ordered + rest, limit) == ordered;
      assert ((before + bucket) + rest)[..limit] == (before + bucket)[..limit];
    }
  }
}
