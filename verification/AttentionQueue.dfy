/** Ids of attention items, and the two orders the queue compares them by. */
module ItemIds {
  datatype Kind =
    | ContractAmendment | WorkReview | CandidateCommit | DeliveryChange | AgentRequest | DecisionRequested | Ops | ScheduleMissed
    | GithubDisconnected

  function KindName(k: Kind): string {
    match k
    case ContractAmendment => "CONTRACT_AMENDMENT"
    case WorkReview => "WORK_REVIEW"
    case CandidateCommit => "CANDIDATE_COMMIT"
    case DeliveryChange => "DELIVERY_CHANGE"
    case AgentRequest => "AGENT_REQUEST"
    case DecisionRequested => "DECISION_REQUESTED"
    case Ops => "OPS"
    case ScheduleMissed => "SCHEDULE_MISSED"
    case GithubDisconnected => "GITHUB_DISCONNECTED"
  }

  predicate IsHex(c: char) { '0' <= c <= '9' || 'a' <= c <= 'f' }

  predicate IsUuid(s: string) {
    |s| == 36 && forall i :: 0 <= i < 36 ==> if i == 8 || i == 13 || i == 18 || i == 23 then s[i] == '-' else IsHex(s[i])
  }

  function ItemId(kind: Kind, uuid: string): string { KindName(kind) + ":" + uuid }

  ghost predicate IsItemId(id: string) { exists kind, uuid :: IsUuid(uuid) && id == ItemId(kind, uuid) }

  // ------------------------------------------------------- lexicographic order

  predicate LexLess(a: seq<int>, b: seq<int>) {
    b != [] && (a == [] || a[0] < b[0] || (a[0] == b[0] && LexLess(a[1..], b[1..])))
  }

  lemma {:induction false} LexTransitive(a: seq<int>, b: seq<int>, c: seq<int>)
    requires LexLess(a, b) && LexLess(b, c)
    ensures LexLess(a, c)
  {
    if a != [] && a[0] == b[0] && b[0] == c[0] {
      LexTransitive(a[1..], b[1..], c[1..]);
    }
  }

  lemma {:induction false} LexAsymmetric(a: seq<int>, b: seq<int>)
    ensures !(LexLess(a, b) && LexLess(b, a))
  {
    if a != [] && b != [] && a[0] == b[0] {
      LexAsymmetric(a[1..], b[1..]);
    }
  }

  /** The first place at which two sequences differ decides. */
  lemma {:induction false} LexAt(a: seq<int>, b: seq<int>, i: nat)
    requires i < |a| && i < |b| && a[i] != b[i] && a[..i] == b[..i]
    ensures LexLess(a, b) <==> a[i] < b[i]
  {
    if i > 0 {
      assert a[0] == a[..i][0] && b[0] == b[..i][0];
      assert a[1..][..i - 1] == a[..i][1..] && b[1..][..i - 1] == b[..i][1..];
      LexAt(a[1..], b[1..], i - 1);
    }
  }

  /** The order of UTF-16 code units, which the cursor goes by. */
  function Codes(s: string): (r: seq<int>)
    ensures |r| == |s| && forall i :: 0 <= i < |r| ==> r[i] == s[i] as int
  {
    seq(|s|, i requires 0 <= i < |s| => s[i] as int)
  }

  predicate CodeLess(a: string, b: string) { LexLess(Codes(a), Codes(b)) }

  // ----------------------------------------------------------------- collation

  // The process's locale: the CLDR root collation, or a tailoring that sorts "aa" as a letter after z, as Danish does.
  datatype Locale = Root | Danish

  /** Primary weight in the CLDR root collation: underscore, hyphen, colon, digits, then letters of either case. */
  function Weight(c: char): int {
    if c == '_' then 0 else if c == '-' then 1 else if c == ':' then 2
    else if '0' <= c <= '9' then 10 + (c - '0') as int
    else if 'a' <= c <= 'z' then 20 + (c - 'a') as int
    else if 'A' <= c <= 'Z' then 20 + (c - 'A') as int
    else 100 + c as int
  }

  const AFTER_Z := 50

  /**
   * The sort key localeCompare compares first. Case decides only between strings with
   * equal keys; kinds are all upper case and identifiers all lower case.
   */
  function Keys(l: Locale, s: string): seq<int> {
    if s == "" then []
    else if l.Danish? && |s| >= 2 && Weight(s[0]) == Weight('a') && Weight(s[1]) == Weight('a') then [AFTER_Z] + Keys(l, s[2..])
    else [Weight(s[0])] + Keys(l, s[1..])
  }

  predicate Collates(l: Locale, a: string, b: string) { LexLess(Keys(l, a), Keys(l, b)) }

  lemma {:induction false} RootKeys(s: string)
    ensures |Keys(Root, s)| == |s| && forall i :: 0 <= i < |s| ==> Keys(Root, s)[i] == Weight(s[i])
  {
    if s != "" {
      RootKeys(s[1..]);
    }
  }

  // ------------------------------------------------------ the orders on item ids

  /** Both characters can stand at the first difference of two item ids, where the two orders see them alike. */
  predicate SameClass(c: char, d: char) { (IsHex(c) && IsHex(d)) || ('A' <= c <= 'Z' && 'A' <= d <= 'Z') }

  lemma OrdersAgreeAt(a: string, b: string, i: nat)
    requires i < |a| && i < |b| && a[i] != b[i] && a[..i] == b[..i] && SameClass(a[i], b[i])
    ensures Collates(Root, a, b) <==> CodeLess(a, b)
  {
    RootKeys(a);
    RootKeys(b);
    forall j | 0 <= j < i
      ensures a[j] == b[j]
    {
      assert a[..i][j] == b[..i][j];
    }
    assert Codes(a)[..i] == Codes(b)[..i] && Keys(Root, a)[..i] == Keys(Root, b)[..i];
    LexAt(Codes(a), Codes(b), i);
    LexAt(Keys(Root, a), Keys(Root, b), i);
  }

  /** Two kinds differ within their first three letters. */
  lemma KindsDiffer(k: Kind, m: Kind) returns (i: nat)
    requires k != m
    ensures i < 3 && i < |KindName(k)| && i < |KindName(m)| && KindName(k)[..i] == KindName(m)[..i]
    ensures KindName(k)[i] != KindName(m)[i] && SameClass(KindName(k)[i], KindName(m)[i])
  {
    if KindName(k)[0] != KindName(m)[0] {
      i := 0;
    } else if KindName(k)[1] != KindName(m)[1] {
      i := 1;
    } else {
      i := 2;
    }
  }

  /** Two identifiers differ first at a hexadecimal digit. */
  lemma UuidsDiffer(u: string, v: string, n: nat) returns (i: nat)
    requires IsUuid(u) && IsUuid(v) && u != v && n <= 36 && u[..n] == v[..n]
    ensures i < 36 && u[..i] == v[..i] && u[i] != v[i] && SameClass(u[i], v[i])
    decreases 36 - n
  {
    assert u[..36] == u && v[..36] == v;
    if u[n] != v[n] {
      i := n;
    } else {
      assert u[..n + 1] == u[..n] + [u[n]] && v[..n + 1] == v[..n] + [v[n]];
      i := UuidsDiffer(u, v, n + 1);
    }
  }

  lemma SameKindAgrees(p: string, u: string, v: string)
    requires IsUuid(u) && IsUuid(v) && u != v
    ensures Collates(Root, p + u, p + v) <==> CodeLess(p + u, p + v)
  {
    var i := UuidsDiffer(u, v, 0);
    assert (p + u)[..|p| + i] == p + u[..i] && (p + v)[..|p| + i] == p + v[..i];
    OrdersAgreeAt(p + u, p + v, |p| + i);
  }

  lemma OtherKindAgrees(k: Kind, m: Kind, s: string, t: string)
    requires k != m
    ensures Collates(Root, KindName(k) + s, KindName(m) + t) <==> CodeLess(KindName(k) + s, KindName(m) + t)
  {
    var i := KindsDiffer(k, m);
    var x, y := KindName(k), KindName(m);
    assert (x + s)[..i] == x[..i] && (y + t)[..i] == y[..i];
    OrdersAgreeAt(x + s, y + t, i);
  }

  lemma PartsAgree(k: Kind, u: string, m: Kind, v: string)
    requires IsUuid(u) && IsUuid(v)
    ensures Collates(Root, ItemId(k, u), ItemId(m, v)) <==> CodeLess(ItemId(k, u), ItemId(m, v))
  {
    var a, b := ItemId(k, u), ItemId(m, v);
    if k != m {
      OtherKindAgrees(k, m, ":" + u, ":" + v);
      assert a == KindName(k) + (":" + u);
      assert b == KindName(m) + (":" + v);
    } else if u != v {
      SameKindAgrees(KindName(k) + ":", u, v);
    } else {
      LexAsymmetric(Codes(a), Codes(a));
      LexAsymmetric(Keys(Root, a), Keys(Root, a));
    }
  }

  /** Under the root collation localeCompare orders the ids of items just as code units do. */
  lemma RootAgrees(a: string, b: string)
    requires IsItemId(a) && IsItemId(b)
    ensures Collates(Root, a, b) <==> CodeLess(a, b)
  {
    var k, u :| IsUuid(u) && a == ItemId(k, u);
    var m, v :| IsUuid(v) && b == ItemId(m, v);
    PartsAgree(k, u, m, v);
  }

  // ---------------------------------------------------- where the orders disagree

  lemma KeysCons(l: Locale, c: char, s: string)
    requires Weight(c) != Weight('a')
    ensures Keys(l, [c] + s) == [Weight(c)] + Keys(l, s)
  {
    assert ([c] + s)[1..] == s;
  }

  /** The rest of a version 4 UUID after its first two digits. */
  function Zeros(): (t: string)
    ensures |t| == 34
  {
    seq(34, i => if i == 6 || i == 11 || i == 16 || i == 21 then '-' else if i == 12 then '4' else if i == 17 then '8' else '0')
  }

  // OPS:aa000000-0000-4000-8000-000000000000 and OPS:ab000000-0000-4000-8000-000000000000.
  function IdAA(): string { ItemId(Ops, "aa" + Zeros()) }
  function IdAB(): string { ItemId(Ops, "ab" + Zeros()) }

  lemma PairIds()
    ensures IsItemId(IdAA()) && IsItemId(IdAB())
  {
    assert IsUuid("aa" + Zeros());
    assert IsUuid("ab" + Zeros());
  }

  lemma {:induction false} LexPrefix(p: seq<int>, a: seq<int>, b: seq<int>)
    ensures LexLess(p + a, p + b) <==> LexLess(a, b)
  {
    if p == [] {
      assert p + a == a && p + b == b;
    } else {
      assert (p + a)[1..] == p[1..] + a && (p + b)[1..] == p[1..] + b;
      LexPrefix(p[1..], a, b);
    }
  }

  lemma AAFirstByCode(p: string, t: string)
    ensures CodeLess(p + ("aa" + t), p + ("ab" + t))
  {
    LexPrefix(Codes(p), Codes("aa" + t), Codes("ab" + t));
    assert Codes(p + ("aa" + t)) == Codes(p) + Codes("aa" + t);
    assert Codes(p + ("ab" + t)) == Codes(p) + Codes("ab" + t);
    LexAt(Codes("aa" + t), Codes("ab" + t), 1);
  }

  lemma AALastInDanish(t: string)
    ensures LexLess(Keys(Danish, "ab" + t), Keys(Danish, "aa" + t))
  {
    var aa, ab := "aa" + t, "ab" + t;
    assert aa[0] == 'a' && aa[1] == 'a' && ab[0] == 'a' && ab[1] == 'b';
    assert Keys(Danish, aa)[0] == AFTER_Z && Keys(Danish, ab)[0] == Weight('a');
  }

  /** Two ids the queue can hold that Danish sorts one way and code units the other. */
  lemma DanishDisagrees()
    ensures Collates(Danish, IdAB(), IdAA()) && CodeLess(IdAA(), IdAB())
  {
    var aa, ab := "aa" + Zeros(), "ab" + Zeros();
    DanishHead(aa);
    DanishHead(ab);
    AALastInDanish(Zeros());
    LexPrefix([Weight('O'), Weight('P'), Weight('S'), Weight(':')], Keys(Danish, ab), Keys(Danish, aa));
    AAFirstByCode(KindName(Ops) + ":", Zeros());
  }

  lemma DanishHead(s: string)
    ensures Keys(Danish, ItemId(Ops, s)) == [Weight('O'), Weight('P'), Weight('S'), Weight(':')] + Keys(Danish, s)
  {
    KeysCons(Danish, ':', s);
    KeysCons(Danish, 'S', ":" + s);
    KeysCons(Danish, 'P', "S" + (":" + s));
    KeysCons(Danish, 'O', "P" + ("S" + (":" + s)));
    assert ItemId(Ops, s) == "O" + ("P" + ("S" + (":" + s)));
  }
}

/** The attention queue: keyset paging that survives items vanishing and arriving between pages. */
module AttentionQueue {
  import opened Wrappers
  import opened ItemIds

  // What a page's order and cursor look at.
  datatype Item = Item(since: int, id: string)

  /** Strictly after the cursor: the comparison the paging itself makes. */
  predicate After(x: Item, cursor: Item) {
    x.since > cursor.since || (x.since == cursor.since && CodeLess(cursor.id, x.id))
  }

  lemma AfterTransitive(x: Item, y: Item, z: Item)
    requires After(y, x) && After(z, y)
    ensures After(z, x)
  {
    if x.since == y.since == z.since {
      LexTransitive(Codes(x.id), Codes(y.id), Codes(z.id));
    }
  }

  lemma AfterAsymmetric(x: Item, y: Item)
    ensures !(After(x, y) && After(y, x))
  {
    LexAsymmetric(Codes(x.id), Codes(y.id));
  }

  datatype Page = Page(nodes: seq<Item>, endCursor: Option<Item>, hasNextPage: bool)

  /** Position of the first item at or after k that the cursor lies before, or the end. */
  function Seek(items: seq<Item>, cursor: Item, k: nat): (start: nat)
    requires k <= |items|
    ensures k <= start <= |items|
    ensures forall i :: k <= i < start ==> !After(items[i], cursor)
    ensures start < |items| ==> After(items[start], cursor)
    decreases |items| - k
  {
    if k == |items| || After(items[k], cursor) then k else Seek(items, cursor, k + 1)
  }

  function StartAt(items: seq<Item>, after: Option<Item>): (start: nat)
    ensures start <= |items|
  {
    if after.None? then 0 else Seek(items, after.value, 0)
  }

  function PageOf(items: seq<Item>, first: nat, after: Option<Item>): Page {
    var start := StartAt(items, after);
    var nodes := items[start..Min(start + first, |items|)];
    Page(nodes, if nodes == [] then None else Some(nodes[|nodes| - 1]), start + first < |items|)
  }

  method PageAttention(items: seq<Item>, first: nat, after: Option<Item>) returns (page: Page)
    ensures page == PageOf(items, first, after)
  {
    var start := 0;
    if after.Some? {
      while start < |items| && !After(items[start], after.value)
        invariant 0 <= start <= |items| && forall i :: 0 <= i < start ==> !After(items[i], after.value)
      {
        start := start + 1;
      }
    }
    assert start == StartAt(items, after);
    var nodes := items[start..Min(start + first, |items|)];
    page := Page(nodes, if nodes == [] then None else Some(nodes[|nodes| - 1]), start + first < |items|);
  }

  /** In the order the cursor goes by. */
  ghost predicate InOrder(items: seq<Item>) {
    forall i, j :: 0 <= i < j < |items| ==> After(items[j], items[i])
  }

  /**
   * What a reader sees who walks the queue, each page taken from the queue as it then is:
   * the k-th queue is what the reading of the k-th page finds.
   */
  ghost function Walk(queues: seq<seq<Item>>, k: nat, first: nat, after: Option<Item>): seq<Item>
    decreases |queues| - k
  {
    if k >= |queues| then []
    else
      var page := PageOf(queues[k], first, after);
      if page.hasNextPage then page.nodes + Walk(queues, k + 1, first, page.endCursor) else page.nodes
  }

  /** The walk reaches a last page before the queues it is given run out. */
  ghost predicate Finishes(queues: seq<seq<Item>>, k: nat, first: nat, after: Option<Item>)
    decreases |queues| - k
  {
    k < |queues| && var page := PageOf(queues[k], first, after);
    (page.hasNextPage ==> Finishes(queues, k + 1, first, page.endCursor))
  }

  lemma PageInOrder(items: seq<Item>, first: nat, after: Option<Item>)
    requires InOrder(items) && first >= 1
    ensures var page := PageOf(items, first, after);
      && InOrder(page.nodes)
      && (after.Some? ==> forall i :: 0 <= i < |page.nodes| ==> After(page.nodes[i], after.value))
      && (page.hasNextPage ==> page.endCursor.Some?)
  {
    var start := StartAt(items, after);
    var nodes := PageOf(items, first, after).nodes;
    forall i | 0 <= i < |nodes|
      ensures after.Some? ==> After(nodes[i], after.value)
    {
      assert nodes[i] == items[start + i];
      if after.Some? && i > 0 {
        AfterTransitive(after.value, items[start], items[start + i]);
      }
    }
    forall i, j | 0 <= i < j < |nodes|
      ensures After(nodes[j], nodes[i])
    {
      assert After(items[start + j], items[start + i]);
    }
  }

  /** Whatever vanishes or arrives between pages, the walk only moves forward: no (since, id) is returned twice. */
  lemma {:induction false} WalkNeverRepeats(queues: seq<seq<Item>>, k: nat, first: nat, after: Option<Item>)
    requires first >= 1 && forall q :: 0 <= q < |queues| ==> InOrder(queues[q])
    ensures var walk := Walk(queues, k, first, after);
      InOrder(walk) && (after.Some? ==> forall i :: 0 <= i < |walk| ==> After(walk[i], after.value))
    decreases |queues| - k
  {
    if k < |queues| {
      PageInOrder(queues[k], first, after);
      var page := PageOf(queues[k], first, after);
      if page.hasNextPage {
        WalkNeverRepeats(queues, k + 1, first, page.endCursor);
        JoinInOrder(page.nodes, Walk(queues, k + 1, first, page.endCursor), after);
      }
    }
  }

  lemma JoinInOrder(a: seq<Item>, b: seq<Item>, after: Option<Item>)
    requires a != [] && InOrder(a) && InOrder(b) && forall j :: 0 <= j < |b| ==> After(b[j], a[|a| - 1])
    requires after.Some? ==> forall i :: 0 <= i < |a| ==> After(a[i], after.value)
    ensures InOrder(a + b)
    ensures after.Some? ==> forall i :: 0 <= i < |a + b| ==> After((a + b)[i], after.value)
  {
    forall j | 0 <= j < |b|
      ensures forall i :: 0 <= i < |a| ==> After(b[j], a[i])
      ensures after.Some? ==> After(b[j], after.value)
    {
      if after.Some? {
        AfterTransitive(after.value, a[|a| - 1], b[j]);
      }
      forall i | 0 <= i < |a|
        ensures After(b[j], a[i])
      {
        if i < |a| - 1 {
          AfterTransitive(a[i], a[|a| - 1], b[j]);
        }
      }
    }
  }

  lemma PageReturns(items: seq<Item>, first: nat, after: Option<Item>, x: Item)
    requires InOrder(items) && first >= 1 && x in items && (after.Some? ==> After(x, after.value))
    ensures var page := PageOf(items, first, after);
      x in page.nodes || (page.hasNextPage && page.endCursor.Some? && After(x, page.endCursor.value))
  {
    var start := StartAt(items, after);
    var i :| 0 <= i < |items| && items[i] == x;
    var page := PageOf(items, first, after);
    assert i >= start;
    if i < start + first {
      assert page.nodes[i - start] == x;
    } else {
      assert page.endCursor == Some(items[start + first - 1]);
      assert After(items[i], items[start + first - 1]);
    }
  }

  /** An item that stays, with its (since, id) unchanged, is returned by every walk that finishes. */
  lemma {:induction false} WalkReturnsStaying(queues: seq<seq<Item>>, k: nat, first: nat, after: Option<Item>, x: Item)
    requires first >= 1 && Finishes(queues, k, first, after)
    requires forall q :: 0 <= q < |queues| ==> InOrder(queues[q]) && x in queues[q]
    requires after.Some? ==> After(x, after.value)
    ensures x in Walk(queues, k, first, after)
    decreases |queues| - k
  {
    PageReturns(queues[k], first, after, x);
    var page := PageOf(queues[k], first, after);
    if x !in page.nodes {
      WalkReturnsStaying(queues, k + 1, first, page.endCursor, x);
    }
  }

  ghost function Occurrences(s: seq<Item>, x: Item): nat {
    if s == [] then 0 else (if s[0] == x then 1 else 0) + Occurrences(s[1..], x)
  }

  lemma {:induction false} OrderedOnce(s: seq<Item>, x: Item)
    requires InOrder(s)
    ensures Occurrences(s, x) == if x in s then 1 else 0
    decreases |s|
  {
    if s != [] {
      forall i, j | 0 <= i < j < |s[1..]|
        ensures After(s[1..][j], s[1..][i])
      {
        assert After(s[j + 1], s[i + 1]);
      }
      OrderedOnce(s[1..], x);
      assert x in s <==> x == s[0] || x in s[1..];
      forall i | 0 <= i < |s[1..]|
        ensures s[1..][i] != s[0]
      {
        assert After(s[i + 1], s[0]);
        AfterAsymmetric(s[i + 1], s[0]);
      }
    }
  }

  /** Every item that stays is returned exactly once by a walk from the start. */
  lemma WalkReturnsExactlyOnce(queues: seq<seq<Item>>, first: nat, x: Item)
    requires first >= 1 && Finishes(queues, 0, first, None)
    requires forall k :: 0 <= k < |queues| ==> InOrder(queues[k]) && x in queues[k]
    ensures Occurrences(Walk(queues, 0, first, None), x) == 1
  {
    WalkReturnsStaying(queues, 0, first, None, x);
    WalkNeverRepeats(queues, 0, first, None);
    OrderedOnce(Walk(queues, 0, first, None), x);
  }

  // ------------------------------------------------- reading an unchanging queue

  /** Every reading finds the same queue. */
  ghost predicate Unchanging(queues: seq<seq<Item>>, items: seq<Item>) {
    forall k :: 0 <= k < |queues| ==> queues[k] == items
  }

  ghost predicate Distinct(items: seq<Item>) {
    forall i, j :: 0 <= i < j < |items| ==> items[i] != items[j]
  }

  /** A page that ends before position b is followed by one that starts there: of the first b items none lies after the last of them, and item b does. */
  ghost predicate MeetsAt(items: seq<Item>, b: nat)
    requires b < |items|
  {
    b > 0 ==> After(items[b], items[b - 1]) && forall i :: 0 <= i < b ==> !After(items[i], items[b - 1])
  }

  /** So it is at every page boundary from b on. */
  ghost predicate PagesMeet(items: seq<Item>, first: nat, b: nat)
    requires first >= 1
    decreases if b < |items| then |items| - b else 0
  {
    b < |items| ==> MeetsAt(items, b) && PagesMeet(items, first, b + first)
  }

  ghost function CursorAt(items: seq<Item>, b: nat): Option<Item>
    requires b <= |items|
  {
    if b == 0 then None else Some(items[b - 1])
  }

  lemma MeetsIff(items: seq<Item>, b: nat)
    requires b < |items|
    ensures StartAt(items, CursorAt(items, b)) == b <==> MeetsAt(items, b)
  {
  }

  /** A page whose cursor finds some other place is no continuation. */
  lemma MissedBoundary(queues: seq<seq<Item>>, k: nat, items: seq<Item>, first: nat, b: nat)
    requires k < |queues| && queues[k] == items && Distinct(items) && first >= 1 && b < |items|
    requires StartAt(items, CursorAt(items, b)) != b
    ensures Walk(queues, k, first, CursorAt(items, b)) != items[b..]
  {
    var start := StartAt(items, CursorAt(items, b));
    var page := PageOf(items, first, CursorAt(items, b));
    if start < |items| {
      assert page.nodes[0] == items[start];
      assert Walk(queues, k, first, CursorAt(items, b))[0] == items[start];
      assert items[b..][0] == items[b];
    }
  }

  /** A page whose cursor finds the boundary continues with the page cut there. */
  lemma MetBoundary(queues: seq<seq<Item>>, k: nat, items: seq<Item>, first: nat, b: nat)
    requires k < |queues| && queues[k] == items && first >= 1 && b + first < |items|
    requires StartAt(items, CursorAt(items, b)) == b
    ensures var whole, rest := Walk(queues, k, first, CursorAt(items, b)), Walk(queues, k + 1, first, CursorAt(items, b + first));
      whole == items[b..b + first] + rest && (whole == items[b..] <==> rest == items[b + first..])
  {
    assert items[b..b + first][first - 1] == items[b + first - 1];
    assert PageOf(items, first, CursorAt(items, b)) == Page(items[b..b + first], CursorAt(items, b + first), true);
    FirstPartOff(items, b, first, Walk(queues, k, first, CursorAt(items, b)), Walk(queues, k + 1, first, CursorAt(items, b + first)));
  }

  lemma MetLast(queues: seq<seq<Item>>, k: nat, items: seq<Item>, first: nat, b: nat)
    requires k < |queues| && queues[k] == items && first >= 1 && b < |items| <= b + first
    requires StartAt(items, CursorAt(items, b)) == b
    ensures Walk(queues, k, first, CursorAt(items, b)) == items[b..]
  {
    var page := PageOf(items, first, CursorAt(items, b));
    assert items[b..|items|] == items[b..];
    assert page.nodes == items[b..] && !page.hasNextPage;
  }

  lemma FirstPartOff(items: seq<Item>, b: nat, first: nat, whole: seq<Item>, rest: seq<Item>)
    requires b + first < |items| && whole == items[b..b + first] + rest
    ensures whole == items[b..] <==> rest == items[b + first..]
  {
    assert items[b..] == items[b..b + first] + items[b + first..];
    if whole == items[b..] {
      assert rest == whole[first..];
      assert items[b + first..] == items[b..][first..];
    }
  }

  lemma {:induction false} MeetingWalk(queues: seq<seq<Item>>, k: nat, items: seq<Item>, first: nat, b: nat)
    requires Unchanging(queues, items) && first >= 1 && b < |items| && k + |items| - b <= |queues|
    requires PagesMeet(items, first, b)
    ensures Walk(queues, k, first, CursorAt(items, b)) == items[b..]
    decreases |items| - b
  {
    MeetsIff(items, b);
    if b + first < |items| {
      MeetingWalk(queues, k + 1, items, first, b + first);
      MetBoundary(queues, k, items, first, b);
    } else {
      MetLast(queues, k, items, first, b);
    }
  }

  lemma {:induction false} MissingWalk(queues: seq<seq<Item>>, k: nat, items: seq<Item>, first: nat, b: nat)
    requires Unchanging(queues, items) && Distinct(items) && first >= 1 && b < |items| && k + |items| - b <= |queues|
    requires !PagesMeet(items, first, b)
    ensures Walk(queues, k, first, CursorAt(items, b)) != items[b..]
    decreases |items| - b
  {
    MeetsIff(items, b);
    if MeetsAt(items, b) {
      MissingWalk(queues, k + 1, items, first, b + first);
      MetBoundary(queues, k, items, first, b);
    } else {
      MissedBoundary(queues, k, items, first, b);
    }
  }

  /**
   * For every page size, reading an unchanging queue page by page gives all of it
   * exactly when at each page boundary the cursor finds the item that comes next.
   */
  lemma PagingCompleteIff(queues: seq<seq<Item>>, items: seq<Item>, first: nat)
    requires Unchanging(queues, items) && Distinct(items) && first >= 1 && |queues| >= |items|
    ensures Walk(queues, 0, first, None) == items <==> PagesMeet(items, first, 0)
  {
    if items == [] {
      assert |queues| > 0 ==> PageOf(queues[0], first, None).nodes == [];
    } else {
      assert items[0..] == items;
      if PagesMeet(items, first, 0) {
        MeetingWalk(queues, 0, items, first, 0);
      } else {
        MissingWalk(queues, 0, items, first, 0);
      }
    }
  }

  lemma {:induction false} InOrderMeets(items: seq<Item>, first: nat, b: nat)
    requires InOrder(items) && first >= 1
    ensures PagesMeet(items, first, b)
    decreases if b < |items| then |items| - b else 0
  {
    if b < |items| {
      if b > 0 {
        forall i | 0 <= i < b
          ensures !After(items[i], items[b - 1])
        {
          AfterAsymmetric(items[i], items[b - 1]);
          assert i < b - 1 ==> After(items[b - 1], items[i]);
        }
      }
      InOrderMeets(items, first, b + first);
    }
  }

  lemma {:induction false} SinglesMeet(items: seq<Item>, b: nat, j: nat)
    requires PagesMeet(items, 1, b) && b <= j < |items|
    ensures MeetsAt(items, j)
    decreases j - b
  {
    if b < j {
      SinglesMeet(items, b + 1, j);
    }
  }

  lemma {:induction false} ClimbsTo(items: seq<Item>, i: nat, j: nat)
    requires PagesMeet(items, 1, 0) && i < j < |items|
    ensures After(items[j], items[i])
    decreases j
  {
    SinglesMeet(items, 0, j);
    if i < j - 1 {
      ClimbsTo(items, i, j - 1);
      AfterTransitive(items[i], items[j - 1], items[j]);
    }
  }

  lemma SinglesInOrder(items: seq<Item>)
    requires PagesMeet(items, 1, 0)
    ensures InOrder(items)
  {
    forall i, j | 0 <= i < j < |items|
      ensures After(items[j], items[i])
    {
      ClimbsTo(items, i, j);
    }
  }

  /** Pages of every size meet when the queue is in the cursor's order, and pages of one item only then. */
  lemma EveryPageSizeIff(items: seq<Item>)
    ensures InOrder(items) <==> PagesMeet(items, 1, 0)
    ensures InOrder(items) ==> forall first: nat :: first >= 1 ==> PagesMeet(items, first, 0)
  {
    if InOrder(items) {
      forall first: nat | first >= 1
        ensures PagesMeet(items, first, 0)
      {
        InOrderMeets(items, first, 0);
      }
      InOrderMeets(items, 1, 0);
    } else if PagesMeet(items, 1, 0) {
      SinglesInOrder(items);
    }
  }

  // --------------------------------------- the sort's order and the cursor's order

  /** In the order loadAttention sorts by: since, then localeCompare of the ids. */
  ghost predicate SortedIn(l: Locale, items: seq<Item>) {
    forall i, j :: 0 <= i < j < |items| ==>
      items[i].since < items[j].since || (items[i].since == items[j].since && Collates(l, items[i].id, items[j].id))
  }

  ghost predicate ItemsOk(items: seq<Item>) { forall i :: 0 <= i < |items| ==> IsItemId(items[i].id) }

  /** The two orders agree on the ids that share a since. */
  ghost predicate OrdersAgree(l: Locale, items: seq<Item>) {
    forall i, j :: 0 <= i < |items| && 0 <= j < |items| && items[i].since == items[j].since ==>
      (Collates(l, items[i].id, items[j].id) <==> CodeLess(items[i].id, items[j].id))
  }

  /** In any locale the sorted queue is in the cursor's order exactly when the two orders agree on it. */
  lemma SortIsInOrderIff(l: Locale, items: seq<Item>)
    requires SortedIn(l, items)
    ensures InOrder(items) <==> OrdersAgree(l, items)
  {
    if InOrder(items) {
      forall i, j | 0 <= i < |items| && 0 <= j < |items| && items[i].since == items[j].since
        ensures Collates(l, items[i].id, items[j].id) <==> CodeLess(items[i].id, items[j].id)
      {
        LexAsymmetric(Keys(l, items[i].id), Keys(l, items[j].id));
        LexAsymmetric(Codes(items[i].id), Codes(items[j].id));
        if i < j {
          assert After(items[j], items[i]);
        } else if j < i {
          assert After(items[i], items[j]);
        }
      }
    }
  }

  lemma SortedDistinct(l: Locale, items: seq<Item>)
    requires SortedIn(l, items)
    ensures Distinct(items)
  {
    forall i, j | 0 <= i < j < |items|
      ensures items[i] != items[j]
    {
      LexAsymmetric(Keys(l, items[i].id), Keys(l, items[j].id));
    }
  }

  /** So a sorted queue is read in full, one item at a time, exactly when the orders agree on it; and then at every page size. */
  lemma SortedPagingIff(l: Locale, queues: seq<seq<Item>>, items: seq<Item>)
    requires SortedIn(l, items) && Unchanging(queues, items) && |queues| >= |items|
    ensures Walk(queues, 0, 1, None) == items <==> OrdersAgree(l, items)
    ensures OrdersAgree(l, items) ==> forall first: nat :: first >= 1 ==> Walk(queues, 0, first, None) == items
  {
    SortedDistinct(l, items);
    SortIsInOrderIff(l, items);
    EveryPageSizeIff(items);
    PagingCompleteIff(queues, items, 1);
    if InOrder(items) {
      forall first: nat | first >= 1
        ensures Walk(queues, 0, first, None) == items
      {
        PagingCompleteIff(queues, items, first);
      }
    }
  }

  /** Under the root collation the ids of items always agree, so the queue is in the cursor's order. */
  lemma RootSortIsInOrder(items: seq<Item>)
    requires SortedIn(Root, items) && ItemsOk(items)
    ensures InOrder(items)
  {
    forall i, j | 0 <= i < j < |items|
      ensures After(items[j], items[i])
    {
      RootAgrees(items[i].id, items[j].id);
    }
  }

  /** The queue as loadAttention sorts it under the root collation: an item that stays is returned exactly once, whatever else vanishes or arrives. */
  lemma RootWalkReturnsExactlyOnce(queues: seq<seq<Item>>, first: nat, x: Item)
    requires first >= 1 && Finishes(queues, 0, first, None)
    requires forall k :: 0 <= k < |queues| ==> SortedIn(Root, queues[k]) && ItemsOk(queues[k]) && x in queues[k]
    ensures Occurrences(Walk(queues, 0, first, None), x) == 1
    ensures InOrder(Walk(queues, 0, first, None))
  {
    forall k | 0 <= k < |queues|
      ensures InOrder(queues[k])
    {
      RootSortIsInOrder(queues[k]);
    }
    WalkReturnsExactlyOnce(queues, first, x);
    WalkNeverRepeats(queues, 0, first, None);
  }

  lemma DanishPair() returns (items: seq<Item>)
    ensures items == [Item(0, IdAB()), Item(0, IdAA())]
    ensures SortedIn(Danish, items) && ItemsOk(items) && Distinct(items) && !After(items[1], items[0])
  {
    items := [Item(0, IdAB()), Item(0, IdAA())];
    PairIds();
    DanishDisagrees();
    LexAsymmetric(Keys(Danish, IdAA()), Keys(Danish, IdAB()));
    LexAsymmetric(Codes(IdAA()), Codes(IdAB()));
  }

  /** Under a locale that sorts "aa" after z, two items of one instant are sorted one way and paged the other, and the second is never returned. */
  lemma DanishWalkDropsOne() returns (items: seq<Item>)
    ensures SortedIn(Danish, items) && ItemsOk(items) && Distinct(items) && |items| == 2
    ensures forall queues :: Unchanging(queues, items) && |queues| >= 2 ==> Walk(queues, 0, 1, None) == [items[0]]
  {
    items := DanishPair();
    AfterAsymmetric(items[0], items[0]);
    var none := PageOf(items, 1, CursorAt(items, 1));
    assert StartAt(items, CursorAt(items, 1)) == 2;
    assert none.nodes == [] && !none.hasNextPage;
    forall queues | Unchanging(queues, items) && |queues| >= 2
      ensures Walk(queues, 0, 1, None) == [items[0]]
    {
      MetBoundary(queues, 0, items, 1, 0);
      assert Walk(queues, 1, 1, CursorAt(items, 1)) == [];
      assert items[0..1] + [] == [items[0]];
    }
  }
}
