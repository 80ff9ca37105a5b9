/** Runs of an instantiated package: units are claimed behind their predecessors and never deadlock. */
module DeliveryRuns {
  import opened Wrappers
  import opened WorkflowStates
  import opened DeliveryGraph
  import opened DeliveryPolicy
  import opened DeliveryGrant
  import opened DeliveryExecution

  /** A row created for a unit still passes the binding check: creation and check agree. */
  lemma CreatedUnitBinds(s: Store, c: Grant, i: IssueId, k: Key)
    requires Approved(s, c.root) && i < |s.issues| && UnitOf(c.units, k).Some?
    requires s.packages[c.root].revision == c.revision && s.packages[c.root].units == c.units
    requires s.issues[c.root].terms == c.terms && s.issues[i] == UnitIssue(c, k)
    ensures BindingOf(s, i) == Bound(UnitOf(c.units, k).value)
  {
  }

  ghost predicate IsUnitRow(c: Grant, s: Store, i: IssueId) { i < |s.issues| && IsUnit(c, s.issues[i]) }

  ghost function KeyOf(c: Grant, s: Store, i: IssueId): Key
    requires IsUnitRow(c, s, i)
  {
    s.issues[i].bind.value.key
  }

  /** A package at one grant revision: approved, every unit created and still bound. */
  ghost predicate Granted(c: Grant, s: Store) {
    && AcceptedPolicy(c.units) && Approved(s, c.root) && WellFormed(c, s.issues)
    && s.packages[c.root].revision == c.revision && s.packages[c.root].units == c.units
    && (forall k :: k in PolicyGraph(c.units) ==> HasUnit(s.issues, BindFor(c, k)))
    && (forall i :: IsUnitRow(c, s, i) ==> BindingOf(s, i).Bound?)
  }

  /** And nothing but its own edges blocks a unit. */
  ghost predicate Live(c: Grant, s: Store) {
    Granted(c, s) && forall l :: l in s.links && IsUnitRow(c, s, l.blocked) ==> IsEdgeLink(c, s.issues, l)
  }

  /** A package whose units were all just instantiated is live: the runs below start where creation ends. */
  lemma InstantiatedIsLive(c: Grant, s: Store, n: nat, links: set<Link>)
    requires AcceptedPolicy(c.units) && Approved(s, c.root) && WellFormed(c, s.issues)
    requires s.packages[c.root].revision == c.revision && s.packages[c.root].units == c.units && s.issues[c.root].terms == c.terms
    requires forall k :: k in PolicyGraph(c.units) ==> HasUnit(s.issues, BindFor(c, k))
    requires forall i: IssueId :: IsUnitRow(c, s, i) ==>
      n <= i && IsNewUnit(c, s.issues[i])
    requires LinksAdded(c, s.issues, n, links, s.links) && forall l :: l in links ==> l.blocked < n
    ensures Live(c, s)
  {
    forall i: IssueId | IsUnitRow(c, s, i)
      ensures BindingOf(s, i).Bound?
    {
      CreatedUnitBinds(s, c, i, KeyOf(c, s, i));
    }
  }

  function WithEvidence(s: Store, evidence: set<IssueId>): Store { s.(evidence := evidence) }

  lemma EvidenceOnly(c: Grant, s: Store, evidence: set<IssueId>)
    requires Granted(c, s)
    ensures Granted(c, WithEvidence(s, evidence)) && (Live(c, s) ==> Live(c, WithEvidence(s, evidence)))
    ensures forall i :: 0 <= i < |s.issues| ==> BindingOf(WithEvidence(s, evidence), i) == BindingOf(s, i)
  {
    var s' := WithEvidence(s, evidence);
    forall i | 0 <= i < |s.issues|
      ensures BindingOf(s', i) == BindingOf(s, i)
    {
    }
  }

  /** What the binding of a live unit says. */
  lemma UnitFacts(c: Grant, s: Store, i: IssueId)
    requires Granted(c, s) && IsUnitRow(c, s, i)
    ensures KeyOf(c, s, i) in PolicyGraph(c.units) && BindingOf(s, i).Bound?
    ensures BindingOf(s, i).unit == ByKey(c.units)[KeyOf(c, s, i)]
    ensures BindingOf(s, i).unit.dependsOn == PolicyGraph(c.units)[KeyOf(c, s, i)]
  {
    UnitOfByKey(c.units, KeyOf(c, s, i));
  }

  /** The row of a known key, and only it. */
  lemma RowOf(c: Grant, s: Store, k: Key) returns (i: IssueId)
    requires Granted(c, s) && k in PolicyGraph(c.units)
    ensures IsUnitRow(c, s, i) && KeyOf(c, s, i) == k && FindUnit(s.issues, BindFor(c, k)) == Some(i)
    ensures forall j :: IsUnitRow(c, s, j) && KeyOf(c, s, j) == k ==> j == i
  {
    i := FindUnit(s.issues, BindFor(c, k)).value;
    forall j: IssueId | IsUnitRow(c, s, j) && KeyOf(c, s, j) == k
      ensures j == i
    {
      assert s.issues[j].bind == s.issues[i].bind;
    }
  }

  /** A unit some other depends on can be proved: the policy asked for its checks. */
  lemma PredecessorHasChecks(c: Grant, s: Store, i: IssueId, j: IssueId)
    requires Granted(c, s) && IsUnitRow(c, s, i) && IsUnitRow(c, s, j)
    requires Edge(PolicyGraph(c.units), KeyOf(c, s, i), KeyOf(c, s, j))
    ensures BindingOf(s, j).unit.checks != []
  {
    UnitFacts(c, s, i);
    UnitFacts(c, s, j);
    var u := ByKey(c.units)[KeyOf(c, s, i)];
    var n :| 0 <= n < |c.units| && c.units[n] == u;
  }

  ghost predicate PredecessorsProved(c: Grant, s: Store, i: IssueId) {
    IsUnitRow(c, s, i) && forall j :: IsUnitRow(c, s, j) && Edge(PolicyGraph(c.units), KeyOf(c, s, i), KeyOf(c, s, j)) ==> Proved(s, j)
  }

  /** Whatever else blocks it, a ready unit has every direct predecessor proved. */
  lemma ReadyNeedsProofs(c: Grant, s: Store, i: IssueId)
    requires Granted(c, s) && IsUnitRow(c, s, i) && Ready(s, i)
    ensures PredecessorsProved(c, s, i)
  {
    UnitFacts(c, s, i);
    forall j | IsUnitRow(c, s, j) && KeyOf(c, s, j) in PolicyGraph(c.units)[KeyOf(c, s, i)]
      ensures Proved(s, j)
    {
      var p := RowOf(c, s, KeyOf(c, s, j));
      assert p == j;
    }
  }

  /** A unit of a live package may be claimed exactly when every direct predecessor is proved. */
  lemma ReadyIffPredecessorsProved(c: Grant, s: Store, i: IssueId)
    requires Live(c, s) && IsUnitRow(c, s, i)
    ensures Ready(s, i) <==> PredecessorsProved(c, s, i)
  {
    UnitFacts(c, s, i);
    var deps := PolicyGraph(c.units)[KeyOf(c, s, i)];
    if Ready(s, i) {
      ReadyNeedsProofs(c, s, i);
    }
    if PredecessorsProved(c, s, i) {
      forall d | d in deps
        ensures var p := FindUnit(s.issues, BindFor(c, d)); p.Some? && Proved(s, p.value)
      {
        assert Edge(PolicyGraph(c.units), KeyOf(c, s, i), d);
        var p := RowOf(c, s, d);
      }
      forall l | l in s.links && l.blocked == i
        ensures !LinkBlocks(s, l)
      {
        assert IsEdgeLink(c, s.issues, l);
        assert IsUnitRow(c, s, l.blocker) && Proved(s, l.blocker);
      }
    }
  }

  // --------------------------------------------------------------------- traces

  datatype Event = ClaimUnit(unit: IssueId) | ProveUnit(unit: IssueId) | LoseProof(unit: IssueId)

  datatype Progress = Progress(claimed: set<IssueId>, evidence: set<IssueId>)

  ghost function Step(c: Grant, s: Store, p: Progress, e: Event): Progress {
    match e
    case ClaimUnit(i) =>
      // A renewal needs no readiness, a first claim does; claiming again after completion adds nothing here.
      if IsUnitRow(c, s, i) && (i in p.claimed || Ready(WithEvidence(s, p.evidence), i)) then p.(claimed := p.claimed + {i}) else p
    case ProveUnit(i) => if i in p.claimed then p.(evidence := p.evidence + {i}) else p
    case LoseProof(i) => p.(evidence := p.evidence - {i})
  }

  ghost function After(c: Grant, s: Store, p: Progress, trace: seq<Event>): Progress {
    if trace == [] then p else Step(c, s, After(c, s, p, trace[..|trace| - 1]), trace[|trace| - 1])
  }

  const NOTHING := Progress({}, {})

  ghost function Upto(c: Grant, s: Store, trace: seq<Event>, n: nat): Progress
    requires n <= |trace|
  {
    After(c, s, NOTHING, trace[..n])
  }

  lemma UptoStep(c: Grant, s: Store, trace: seq<Event>, n: nat)
    requires n < |trace|
    ensures Upto(c, s, trace, n + 1) == Step(c, s, Upto(c, s, trace, n), trace[n])
  {
    assert trace[..n + 1][..n] == trace[..n];
  }

  /** Position n of the trace is where unit i is claimed for the first time. */
  ghost predicate FirstClaim(c: Grant, s: Store, trace: seq<Event>, n: nat, i: IssueId) {
    n < |trace| && trace[n] == ClaimUnit(i) && i !in Upto(c, s, trace, n).claimed && i in Upto(c, s, trace, n + 1).claimed
  }

  /** Position n of the trace is where claimed unit i is proved. */
  ghost predicate ProofAt(c: Grant, s: Store, trace: seq<Event>, n: nat, i: IssueId) {
    n < |trace| && trace[n] == ProveUnit(i) && i in Upto(c, s, trace, n).claimed
  }

  lemma {:induction false} ClaimedOnce(c: Grant, s: Store, trace: seq<Event>, n: nat, i: IssueId) returns (a: nat)
    requires n <= |trace| && i in Upto(c, s, trace, n).claimed
    ensures a < n && FirstClaim(c, s, trace, a, i)
    decreases n
  {
    if n == 0 {
      assert false;
    }
    UptoStep(c, s, trace, n - 1);
    if i in Upto(c, s, trace, n - 1).claimed {
      a := ClaimedOnce(c, s, trace, n - 1, i);
    } else {
      a := n - 1;
    }
  }

  lemma {:induction false} ProvedOnce(c: Grant, s: Store, trace: seq<Event>, n: nat, i: IssueId) returns (b: nat)
    requires n <= |trace| && i in Upto(c, s, trace, n).evidence
    ensures b < n && ProofAt(c, s, trace, b, i)
    decreases n
  {
    if n == 0 {
      assert false;
    }
    UptoStep(c, s, trace, n - 1);
    if i in Upto(c, s, trace, n - 1).evidence {
      b := ProvedOnce(c, s, trace, n - 1, i);
    } else {
      b := n - 1;
    }
  }

  /** A first claim was let through only with every direct predecessor's proof on record. */
  lemma FirstClaimWasReady(c: Grant, s: Store, trace: seq<Event>, n: nat, i: IssueId, j: IssueId)
    requires Granted(c, s) && FirstClaim(c, s, trace, n, i) && IsUnitRow(c, s, i) && IsUnitRow(c, s, j)
    requires Edge(PolicyGraph(c.units), KeyOf(c, s, i), KeyOf(c, s, j))
    ensures j in Upto(c, s, trace, n).evidence
  {
    UptoStep(c, s, trace, n);
    var s' := WithEvidence(s, Upto(c, s, trace, n).evidence);
    EvidenceOnly(c, s, s'.evidence);
    ReadyNeedsProofs(c, s', i);
    assert IsUnitRow(c, s', j);
  }

  /**
   * On any run at one grant revision: when a unit is claimed for the first time, each
   * of its direct and transitive predecessors was claimed, and then proved, before that.
   */
  lemma {:induction false} PredecessorsClaimedAndProved(c: Grant, s: Store, trace: seq<Event>, n: nat, i: IssueId, path: seq<Key>, j: IssueId)
      returns (a: nat, b: nat)
    requires Granted(c, s) && FirstClaim(c, s, trace, n, i) && IsUnitRow(c, s, i) && IsUnitRow(c, s, j)
    requires |path| >= 2 && PathFrom(PolicyGraph(c.units), KeyOf(c, s, i), KeyOf(c, s, j), path)
    ensures a < b < n && FirstClaim(c, s, trace, a, j) && ProofAt(c, s, trace, b, j)
    decreases |path|
  {
    assert Edge(PolicyGraph(c.units), path[0], path[1]);
    var next := RowOf(c, s, path[1]);
    FirstClaimWasReady(c, s, trace, n, i, next);
    b := ProvedOnce(c, s, trace, n, next);
    a := ClaimedOnce(c, s, trace, b, next);
    if |path| > 2 {
      var rest := path[1..];
      forall k | 0 <= k < |rest| - 1
        ensures Edge(PolicyGraph(c.units), rest[k], rest[k + 1])
      {
        assert Edge(PolicyGraph(c.units), path[k + 1], path[k + 2]);
      }
      a, b := PredecessorsClaimedAndProved(c, s, trace, a, next, rest, j);
    } else {
      assert next == j;
    }
  }

  // ------------------------------------------------------------------- progress

  /** Below any key outside a set lies one outside it whose dependencies are all inside. */
  lemma {:induction false} FirstOutside(g: Graph, good: set<Key>, k: Key, stack: seq<Key>) returns (r: Key)
    requires AllKnown(g) && Acyclic(g) && k in g && k !in good
    requires stack != [] ==> IsPath(g, stack) && Edge(g, stack[|stack| - 1], k)
    ensures r in g && r !in good && Reaches(g, k, r) && forall d :: d in g[r] ==> d in good
    decreases OffPath(g, stack)
  {
    if d :| d in g[k] && d !in good {
      assert Edge(g, k, d);
      WalkEnds(g, stack, k);
      r := FirstOutside(g, good, d, stack + [k]);
      ReachesStep(g, k, d, r);
    } else {
      ReachesSelf(g, k);
      r := k;
    }
  }

  ghost function ProvedKeys(c: Grant, s: Store): set<Key> {
    set k | k in PolicyGraph(c.units) && exists j :: IsUnitRow(c, s, j) && KeyOf(c, s, j) == k && Proved(s, j)
  }

  /** While some unit is unproved, it or one of its predecessors is unproved with every predecessor proved. */
  lemma NeverDeadlocked(c: Grant, s: Store, i: IssueId) returns (r: IssueId)
    requires Live(c, s) && IsUnitRow(c, s, i) && !Proved(s, i)
    ensures IsUnitRow(c, s, r) && !Proved(s, r) && Ready(s, r) && PredecessorsProved(c, s, r)
    ensures Reaches(PolicyGraph(c.units), KeyOf(c, s, i), KeyOf(c, s, r))
  {
    UnitFacts(c, s, i);
    var row := RowOf(c, s, KeyOf(c, s, i));
    var k := FirstOutside(PolicyGraph(c.units), ProvedKeys(c, s), KeyOf(c, s, i), []);
    r := RowOf(c, s, k);
    forall j | IsUnitRow(c, s, j) && Edge(PolicyGraph(c.units), k, KeyOf(c, s, j))
      ensures Proved(s, j)
    {
      var same := RowOf(c, s, KeyOf(c, s, j));
    }
    ReadyIffPredecessorsProved(c, s, r);
  }

  ghost predicate Finished(c: Grant, s: Store, p: Progress, i: IssueId)
    requires IsUnitRow(c, s, i)
  {
    i in p.claimed && (BindingOf(s, i).Bound? && BindingOf(s, i).unit.checks != [] ==> i in p.evidence)
  }

  ghost predicate PredecessorsFinished(c: Grant, s: Store, p: Progress, i: IssueId) {
    IsUnitRow(c, s, i) && forall j :: IsUnitRow(c, s, j) && Edge(PolicyGraph(c.units), KeyOf(c, s, i), KeyOf(c, s, j)) ==> Finished(c, s, p, j)
  }

  ghost function FinishedKeys(c: Grant, s: Store, p: Progress): set<Key> {
    set k | k in PolicyGraph(c.units) && exists j :: IsUnitRow(c, s, j) && KeyOf(c, s, j) == k && Finished(c, s, p, j)
  }

  /** Some unfinished unit has all its predecessors finished. */
  lemma NextUnit(c: Grant, s: Store, p: Progress, i: IssueId) returns (r: IssueId)
    requires Live(c, s) && IsUnitRow(c, s, i) && !Finished(c, s, p, i)
    ensures IsUnitRow(c, s, r) && !Finished(c, s, p, r) && PredecessorsFinished(c, s, p, r)
  {
    UnitFacts(c, s, i);
    var row := RowOf(c, s, KeyOf(c, s, i));
    var k := FirstOutside(PolicyGraph(c.units), FinishedKeys(c, s, p), KeyOf(c, s, i), []);
    r := RowOf(c, s, k);
    forall j | IsUnitRow(c, s, j) && Edge(PolicyGraph(c.units), k, KeyOf(c, s, j))
      ensures Finished(c, s, p, j)
    {
      var same := RowOf(c, s, KeyOf(c, s, j));
    }
  }

  ghost function Unfinished(c: Grant, s: Store, p: Progress): set<IssueId> {
    set i | 0 <= i < |s.issues| && IsUnitRow(c, s, i) && !Finished(c, s, p, i)
  }

  lemma FinishesOne(c: Grant, s: Store, p: Progress, i: IssueId)
    requires Live(c, s) && IsUnitRow(c, s, i) && !Finished(c, s, p, i) && PredecessorsFinished(c, s, p, i)
    ensures var p' := Step(c, s, Step(c, s, p, ClaimUnit(i)), ProveUnit(i)); Unfinished(c, s, p') < Unfinished(c, s, p)
  {
    var s' := WithEvidence(s, p.evidence);
    EvidenceOnly(c, s, p.evidence);
    forall j | IsUnitRow(c, s', j) && Edge(PolicyGraph(c.units), KeyOf(c, s', i), KeyOf(c, s', j))
      ensures Proved(s', j)
    {
      assert IsUnitRow(c, s, j) && Finished(c, s, p, j);
      PredecessorHasChecks(c, s, i, j);
    }
    ReadyIffPredecessorsProved(c, s', i);
    var p' := Step(c, s, Step(c, s, p, ClaimUnit(i)), ProveUnit(i));
    assert p' == Progress(p.claimed + {i}, p.evidence + {i});
    assert i in Unfinished(c, s, p) && i !in Unfinished(c, s, p');
  }

  lemma AfterAppend(c: Grant, s: Store, p: Progress, a: seq<Event>, b: seq<Event>)
    ensures After(c, s, p, a + b) == After(c, s, After(c, s, p, a), b)
    decreases |b|
  {
    if b == [] {
      assert a + b == a;
    } else {
      assert (a + b)[..|a + b| - 1] == a + b[..|b| - 1];
      AfterAppend(c, s, p, a, b[..|b| - 1]);
    }
  }

  lemma TwoSteps(c: Grant, s: Store, p: Progress, a: Event, b: Event)
    ensures After(c, s, p, [a, b]) == Step(c, s, Step(c, s, p, a), b)
  {
    assert [a, b][..1] == [a] && [a][..0] == [];
    assert After(c, s, p, [a]) == Step(c, s, p, a);
  }

  /** From any point of any run the package can still be finished: every unit claimed, every checked unit proved. */
  lemma {:induction false} CanAlwaysFinish(c: Grant, s: Store, p: Progress) returns (trace: seq<Event>)
    requires Live(c, s)
    ensures forall i :: IsUnitRow(c, s, i) ==> Finished(c, s, After(c, s, p, trace), i)
    decreases Unfinished(c, s, p)
  {
    if i :| IsUnitRow(c, s, i) && !Finished(c, s, p, i) {
      var r := NextUnit(c, s, p, i);
      FinishesOne(c, s, p, r);
      var two := [ClaimUnit(r), ProveUnit(r)];
      TwoSteps(c, s, p, ClaimUnit(r), ProveUnit(r));
      var rest := CanAlwaysFinish(c, s, After(c, s, p, two));
      trace := two + rest;
      AfterAppend(c, s, p, two, rest);
    } else {
      trace := [];
    }
  }
}

/** Final acceptance of a package: every approved unit, each exactly once. */
module DeliveryReview {
  import opened Wrappers
  import opened WorkflowStates
  import opened DeliveryGraph
  import opened DeliveryPolicy
  import opened DeliveryGrant
  import opened DeliveryExecution

  type RunId = nat

  datatype Run = Run(id: RunId, completed: bool, revoked: bool, boundToClaim: bool, contractCurrent: bool)

  // What the database says about one task at the moment of acceptance.
  datatype Facts = Facts(run: Option<Run>, liveClaim: bool, unresolvedEffect: bool, receipt: bool, dispatchedRun: Option<RunId>, evidence: nat)

  datatype Prepared = Prepared(task: IssueId, run: RunId)

  datatype Outcome = NoPackage | NotAcceptable | Accepts(prepared: seq<Prepared>)

  /** The latest run of a task is complete, current and free of open claims and effects, with the evidence its unit asks for. */
  predicate TaskReady(s: Store, facts: map<IssueId, Facts>, i: IssueId)
    requires i < |s.issues|
  {
    && BindingOf(s, i).Bound? && i in facts
    && var unit, f := BindingOf(s, i).unit, facts[i];
    && (unit.executor.Some? ==> !f.unresolvedEffect && f.receipt && f.run.Some? && f.dispatchedRun == Some(f.run.value.id))
    && f.run.Some? && f.run.value.completed && !f.run.value.revoked && f.run.value.boundToClaim && f.run.value.contractCurrent
    && !f.liveClaim
    && (if unit.checks != [] then Proved(s, i) else f.evidence > 0)
  }

  predicate IsTask(issues: seq<Issue>, root: IssueId, revision: nat, i: IssueId)
    requires i < |issues|
  {
    issues[i].bind.Some? && issues[i].bind.value.root == root && issues[i].bind.value.revision == revision
  }

  /** The issues of a package under one grant revision, by id. */
  function Tasks(issues: seq<Issue>, root: IssueId, revision: nat, n: nat): (ts: seq<IssueId>)
    requires n <= |issues|
    ensures forall k :: 0 <= k < |ts| ==> ts[k] < n && IsTask(issues, root, revision, ts[k])
    ensures forall i :: 0 <= i < n && IsTask(issues, root, revision, i) ==> i in ts
    ensures forall j, k :: 0 <= j < k < |ts| ==> ts[j] < ts[k]
  {
    if n == 0 then []
    else
      var rest := Tasks(issues, root, revision, n - 1);
      if IsTask(issues, root, revision, n - 1) then rest + [n - 1] else rest
  }

  /** The task still is its unit, its latest run is a completed, current and unrevoked one under a claim, no claim is live, no effect unresolved, and its evidence is in. */
  ghost predicate Delivered(s: Store, facts: map<IssueId, Facts>, i: IssueId)
    requires i < |s.issues|
  {
    && BindingOf(s, i).Bound? && i in facts
    && var unit, f := BindingOf(s, i).unit, facts[i];
    && f.run.Some? && f.run.value.completed && !f.run.value.revoked && f.run.value.boundToClaim && f.run.value.contractCurrent
    && !f.liveClaim
    && (unit.executor.Some? ==> f.receipt && !f.unresolvedEffect && f.dispatchedRun == Some(f.run.value.id))
    && (unit.checks != [] ==> i in s.evidence) && (unit.checks == [] ==> f.evidence >= 1)
  }

  lemma DeliveredIff(s: Store, facts: map<IssueId, Facts>, i: IssueId)
    requires i < |s.issues|
    ensures TaskReady(s, facts, i) <==> Delivered(s, facts, i)
  {
  }

  /** The package is authorised, it has as many tasks as units, and every task is delivered. */
  ghost predicate Acceptable(s: Store, facts: map<IssueId, Facts>, root: IssueId) {
    && !Unauthorised(s, root)
    && var ts := Tasks(s.issues, root, s.packages[root].revision, |s.issues|);
    && |ts| == |s.packages[root].units|
    && forall k :: 0 <= k < |ts| ==> Delivered(s, facts, ts[k])
  }

  ghost function TaskKeys(s: Store, prepared: seq<Prepared>): seq<Key>
    requires forall k :: 0 <= k < |prepared| ==> prepared[k].task < |s.issues| && s.issues[prepared[k].task].bind.Some?
  {
    seq(|prepared|, k requires 0 <= k < |prepared| => s.issues[prepared[k].task].bind.value.key)
  }

  /** Prepared tasks and approved units correspond one to one. */
  ghost predicate Bijection(s: Store, prepared: seq<Prepared>, units: seq<Unit>) {
    && |prepared| == |units|
    && (forall k :: 0 <= k < |prepared| ==> prepared[k].task < |s.issues| && s.issues[prepared[k].task].bind.Some?)
    && (forall j, k :: 0 <= j < k < |prepared| ==> TaskKeys(s, prepared)[j] != TaskKeys(s, prepared)[k])
    && (forall k :: k in TaskKeys(s, prepared) <==> k in ByKey(units))
  }

  lemma {:induction false} DistinctSize(ks: seq<Key>)
    requires forall i, j :: 0 <= i < j < |ks| ==> ks[i] != ks[j]
    ensures |(set k | k in ks)| == |ks|
  {
    if ks != [] {
      var init, last := ks[..|ks| - 1], ks[|ks| - 1];
      DistinctSize(init);
      assert (set k | k in ks) == (set k | k in init) + {last};
      assert last !in init;
    }
  }

  lemma SameSizeSubset<T>(a: set<T>, b: set<T>)
    requires a <= b && |a| == |b|
    ensures a == b
  {
    assert |b| == |a| + |b - a| by {
      assert a + (b - a) == b;
    }
  }

  /** As many distinct approved keys as there are units leave none out. */
  lemma DistinctKeysCover(ks: seq<Key>, units: seq<Unit>)
    requires UniqueKeys(units) && |ks| == |units|
    requires forall i, j :: 0 <= i < j < |ks| ==> ks[i] != ks[j]
    requires forall k :: k in ks ==> k in ByKey(units)
    ensures forall k :: k in ks <==> k in ByKey(units)
  {
    DistinctSize(ks);
    ByKeySize(units);
    SameSizeSubset((set k | k in ks), ByKey(units).Keys);
  }

  /** Go over the tasks in order and stop at the first that is not delivered. */
  method PrepareTasks(s: Store, facts: map<IssueId, Facts>, tasks: seq<IssueId>) returns (ready: bool, prepared: seq<Prepared>)
    requires forall k :: 0 <= k < |tasks| ==> tasks[k] < |s.issues|
    ensures ready <==> forall k :: 0 <= k < |tasks| ==> Delivered(s, facts, tasks[k])
    ensures ready ==> |prepared| == |tasks|
    ensures ready ==> forall k :: 0 <= k < |tasks| ==> prepared[k].task == tasks[k] && facts[tasks[k]].run.value.id == prepared[k].run
  {
    prepared := [];
    for i := 0 to |tasks|
      invariant |prepared| == i
      invariant forall k :: 0 <= k < i ==>
        Delivered(s, facts, tasks[k]) && prepared[k].task == tasks[k] && facts[tasks[k]].run.value.id == prepared[k].run
    {
      DeliveredIff(s, facts, tasks[i]);
      if !TaskReady(s, facts, tasks[i]) {
        return false, prepared;
      }
      prepared := prepared + [Prepared(tasks[i], facts[tasks[i]].run.value.id)];
    }
    ready := true;
  }

  /**
   * Acceptance goes ahead exactly when the grant is live, there are as many tasks as
   * units and each is ready; then the tasks are in bijection with the approved units.
   */
  method PrepareDeliveryAcceptance(s: Store, facts: map<IssueId, Facts>, root: IssueId) returns (r: Outcome)
    requires BindsUnique(s.issues)
    requires root in s.packages ==> UniqueKeys(s.packages[root].units)
    ensures r.NoPackage? <==> root !in s.packages
    ensures r.Accepts? <==> Acceptable(s, facts, root)
    ensures r.Accepts? ==> Bijection(s, r.prepared, s.packages[root].units)
    ensures Unauthorised(s, root) ==> !r.Accepts?
    ensures r.Accepts? ==> forall k :: 0 <= k < |r.prepared| ==>
      && IsTask(s.issues, root, s.packages[root].revision, r.prepared[k].task) && Delivered(s, facts, r.prepared[k].task)
      && facts[r.prepared[k].task].run.value.id == r.prepared[k].run
  {
    if root !in s.packages {
      return NoPackage;
    }
    if !Approved(s, root) {
      return NotAcceptable;
    }
    var units := s.packages[root].units;
    var tasks := Tasks(s.issues, root, s.packages[root].revision, |s.issues|);
    if |tasks| != |units| {
      return NotAcceptable;
    }
    var ready, prepared := PrepareTasks(s, facts, tasks);
    if !ready {
      return NotAcceptable;
    }
    TasksMatchUnits(s, root, prepared, tasks);
    r := Accepts(prepared);
  }

  lemma TasksMatchUnits(s: Store, root: IssueId, prepared: seq<Prepared>, tasks: seq<IssueId>)
    requires BindsUnique(s.issues) && root in s.packages && UniqueKeys(s.packages[root].units)
    requires tasks == Tasks(s.issues, root, s.packages[root].revision, |s.issues|)
    requires |prepared| == |tasks| == |s.packages[root].units|
    requires forall k :: 0 <= k < |tasks| ==> prepared[k].task == tasks[k] && BindingOf(s, tasks[k]).Bound?
    ensures Bijection(s, prepared, s.packages[root].units)
  {
    var units := s.packages[root].units;
    var ks := TaskKeys(s, prepared);
    forall j, k | 0 <= j < k < |ks|
      ensures ks[j] != ks[k]
    {
      assert tasks[j] < tasks[k];
      assert s.issues[tasks[j]].bind != s.issues[tasks[k]].bind;
    }
    forall k | k in ks
      ensures k in ByKey(units)
    {
      var j :| 0 <= j < |ks| && ks[j] == k;
      UnitOfByKey(units, k);
      assert BindingOf(s, tasks[j]).Bound?;
    }
    DistinctKeysCover(ks, units);
  }

  datatype Decision = Decision(task: IssueId, run: RunId)

  class ReviewBoard {
    var issues: seq<Issue>
    var decisions: seq<Decision>

    constructor (issues: seq<Issue>)
      ensures this.issues == issues && decisions == []
    {
      this.issues, decisions := issues, [];
    }

    /** Accept the children of a package: each prepared task moves once, gets one decision, and nothing else moves. */
    method AcceptChildren(prepared: seq<Prepared>, state: StateType)
      requires forall k :: 0 <= k < |prepared| ==> prepared[k].task < |issues|
      requires forall j, k :: 0 <= j < k < |prepared| ==> prepared[j].task != prepared[k].task
      modifies this
      ensures |issues| == |old(issues)|
      ensures forall k :: 0 <= k < |prepared| ==> issues[prepared[k].task] == old(issues)[prepared[k].task].(state := state)
      ensures forall i :: 0 <= i < |issues| && (forall k :: 0 <= k < |prepared| ==> prepared[k].task != i) ==> issues[i] == old(issues)[i]
      ensures decisions == old(decisions) + seq(|prepared|, k requires 0 <= k < |prepared| => Decision(prepared[k].task, prepared[k].run))
    {
      for n := 0 to |prepared|
        invariant |issues| == |old(issues)|
        invariant forall k :: 0 <= k < n ==> issues[prepared[k].task] == old(issues)[prepared[k].task].(state := state)
        invariant forall i :: 0 <= i < |issues| && (forall k :: 0 <= k < n ==> prepared[k].task != i) ==> issues[i] == old(issues)[i]
        invariant decisions == old(decisions) + seq(n, k requires 0 <= k < n => Decision(prepared[k].task, prepared[k].run))
      {
        var p := prepared[n];
        issues := issues[p.task := issues[p.task].(state := state)];
        decisions := decisions + [Decision(p.task, p.run)];
      }
    }
  }
}
