/** Grants, execution bindings and readiness of the units of a delivery package. */
module DeliveryGrant {
  import opened Wrappers
  import opened WorkflowStates
  import opened DeliveryGraph
  import opened DeliveryPolicy

  type IssueId = nat

  // The business contract; its acceptance text as the non-blank lines it holds.
  datatype Terms = Terms(acceptance: seq<string>, scope: string, constraints: Option<string>, repository: string, verification: Option<string>)

  // Which approved unit, under which grant, an issue carries out.
  datatype Bind = Bind(root: IssueId, key: Key, revision: nat)

  datatype Issue = Issue(
    committed: bool, superseded: bool, state: StateType, parent: Option<IssueId>, isIssue: bool,
    outcome: Option<string>, terms: Terms, bind: Option<Bind>)

  // An approved package; the digest stands for the contract it was computed from.
  datatype Package = Package(revision: nat, revoked: bool, digest: (Terms, Option<string>), units: seq<Unit>)

  datatype Link = Link(blocker: IssueId, blocked: IssueId)

  datatype Store = Store(issues: seq<Issue>, packages: map<IssueId, Package>, links: set<Link>, evidence: set<IssueId>)

  /** What parseDeliveryPolicy guarantees of a stored policy. */
  ghost predicate AcceptedPolicy(units: seq<Unit>) {
    UniqueKeys(units) && AllKnown(PolicyGraph(units)) && Acyclic(PolicyGraph(units)) && PredecessorsChecked(units)
  }

  /** Nothing authorises the package any more: there is none, it was revoked, its root is uncommitted, superseded or closed, or the contract moved. */
  ghost predicate Unauthorised(s: Store, root: IssueId) {
    || root !in s.packages || root >= |s.issues|
    || s.packages[root].revoked
    || !s.issues[root].committed || s.issues[root].superseded
    || s.issues[root].state.Completed? || s.issues[root].state.Canceled?
    || s.packages[root].digest.0 != s.issues[root].terms || s.packages[root].digest.1 != s.issues[root].outcome
  }

  /** approvedDelivery: the grant is live, the root open and its contract unchanged. */
  predicate Approved(s: Store, root: IssueId) {
    && root in s.packages && root < |s.issues|
    && !s.packages[root].revoked && s.issues[root].committed && !s.issues[root].superseded
    && !Closes(s.issues[root].state)
    && s.packages[root].digest == (s.issues[root].terms, s.issues[root].outcome)
  }

  function Lines(all: seq<string>, chosen: seq<nat>): seq<string> {
    seq(|chosen|, i requires 0 <= i < |chosen| => if chosen[i] < |all| then all[chosen[i]] else "")
  }

  /** executionContract: the unit's acceptance lines under the root's other terms. */
  function ExecutionTerms(units: seq<Unit>, key: Key, root: Terms): Option<Terms> {
    match UnitOf(units, key)
    case None => None
    case Some(u) => Some(root.(acceptance := Lines(root.acceptance, u.criteria)))
  }

  datatype Binding = NotDelivery | Refused | Bound(unit: Unit)

  /** assertDeliveryExecution: the issue still is the approved unit it was created as. */
  function BindingOf(s: Store, i: IssueId): Binding
    requires i < |s.issues|
  {
    var issue := s.issues[i];
    if issue.bind.None? then NotDelivery
    else
      var b := issue.bind.value;
      if !Approved(s, b.root) then Refused
      else if b.revision != s.packages[b.root].revision || issue.parent != Some(b.root) || !issue.isIssue || issue.outcome.Some? then Refused
      else
        var expected := ExecutionTerms(s.packages[b.root].units, b.key, s.issues[b.root].terms);
        if expected != Some(issue.terms) then Refused
        else Bound(UnitOf(s.packages[b.root].units, b.key).value)
  }

  /** hasTechnicalDeliveryProof: bound, with checks, and the current run's evidence verified. */
  predicate Proved(s: Store, i: IssueId) {
    i < |s.issues| && BindingOf(s, i).Bound? && BindingOf(s, i).unit.checks != [] && i in s.evidence
  }

  predicate HasUnit(issues: seq<Issue>, b: Bind) {
    exists i :: 0 <= i < |issues| && issues[i].bind == Some(b)
  }

  /** The issue bound to a unit, if it was created. */
  function FindUnit(issues: seq<Issue>, b: Bind): (r: Option<IssueId>)
    ensures r.Some? ==> r.value < |issues| && issues[r.value].bind == Some(b)
    ensures r.None? ==> !HasUnit(issues, b)
  {
    if issues == [] then None
    else if issues[|issues| - 1].bind == Some(b) then Some(|issues| - 1)
    else FindUnit(issues[..|issues| - 1], b)
  }

  /** deliveryLinkBlocks: a predecessor under the same grant blocks until proved; any other blocker until closed. */
  predicate LinkBlocks(s: Store, l: Link) {
    && l.blocker < |s.issues| && l.blocked < |s.issues|
    && var blocker, blocked := s.issues[l.blocker], s.issues[l.blocked];
    && blocker.committed && !blocker.superseded
    && (if blocked.bind.None? || blocker.bind.None? || blocker.bind.value.root != blocked.bind.value.root
           || blocker.bind.value.revision != blocked.bind.value.revision then !Closes(blocker.state)
        else match BindingOf(s, l.blocked)
             case Bound(unit) =>
               if blocker.bind.value.key !in unit.dependsOn then !Closes(blocker.state) else !Proved(s, l.blocker)
             case _ => true)
  }

  /** isDeliveryExecutionReady. */
  predicate Ready(s: Store, i: IssueId)
    requires i < |s.issues|
  {
    var binding := BindingOf(s, i);
    && !binding.Refused?
    && (binding.Bound? ==>
          var b := s.issues[i].bind.value;
          forall d :: d in binding.unit.dependsOn ==>
            var p := FindUnit(s.issues, Bind(b.root, d, b.revision));
            p.Some? && Proved(s, p.value))
    && forall l :: l in s.links && l.blocked == i ==> !LinkBlocks(s, l)
  }
}

/** Creating the units of an approved package, predecessors first. */
module DeliveryExecution {
  import opened Wrappers
  import opened WorkflowStates
  import opened DeliveryGraph
  import opened DeliveryPolicy
  import opened DeliveryGrant

  datatype Dispatch = Dispatch(work: IssueId, executor: ActorId)

  // The package being carried out.
  datatype Grant = Grant(root: IssueId, revision: nat, units: seq<Unit>, terms: Terms)

  function BindFor(c: Grant, k: Key): Bind { Bind(c.root, k, c.revision) }

  ghost predicate IsUnit(c: Grant, issue: Issue) {
    issue.bind.Some? && issue.bind.value.root == c.root && issue.bind.value.revision == c.revision
  }

  /** The row created for a unit. */
  function UnitIssue(c: Grant, k: Key): Issue
    requires UnitOf(c.units, k).Some?
  {
    Issue(true, false, Unstarted, Some(c.root), true, None, ExecutionTerms(c.units, k, c.terms).value, Some(BindFor(c, k)))
  }

  /** No unit has two rows under one grant: the database key on (root, unit, revision). */
  ghost predicate BindsUnique(issues: seq<Issue>) {
    forall i, j :: 0 <= i < j < |issues| && issues[i].bind.Some? ==> issues[i].bind != issues[j].bind
  }

  /** Every created unit has a row for each of its predecessors, created earlier. */
  ghost predicate PredecessorsFirst(c: Grant, issues: seq<Issue>) {
    forall i :: 0 <= i < |issues| && IsUnit(c, issues[i]) ==>
      && issues[i].bind.value.key in PolicyGraph(c.units)
      && forall d :: d in PolicyGraph(c.units)[issues[i].bind.value.key] ==> HasUnit(issues[..i], BindFor(c, d))
  }

  ghost predicate WellFormed(c: Grant, issues: seq<Issue>) { BindsUnique(issues) && PredecessorsFirst(c, issues) }

  /** The link stands for a dependsOn edge between two units of this grant. */
  ghost predicate IsEdgeLink(c: Grant, issues: seq<Issue>, l: Link) {
    && l.blocker < |issues| && l.blocked < |issues| && IsUnit(c, issues[l.blocker]) && IsUnit(c, issues[l.blocked])
    && Edge(PolicyGraph(c.units), issues[l.blocked].bind.value.key, issues[l.blocker].bind.value.key)
  }

  /** Exactly the edges into rows created since position n were linked. */
  ghost predicate LinksAdded(c: Grant, issues: seq<Issue>, n: nat, links: set<Link>, links': set<Link>) {
    forall l :: l in links' <==> l in links || (l.blocked >= n && IsEdgeLink(c, issues, l))
  }

  ghost predicate IsDispatch(c: Grant, issues: seq<Issue>, d: Dispatch) {
    && d.work < |issues| && IsUnit(c, issues[d.work])
    && UnitOf(c.units, issues[d.work].bind.value.key).Some?
    && UnitOf(c.units, issues[d.work].bind.value.key).value.executor == Some(d.executor)
  }

  /** Exactly the rows created since position n that name an executor were dispatched. */
  ghost predicate DispatchesAdded(c: Grant, issues: seq<Issue>, n: nat, ds: set<Dispatch>, ds': set<Dispatch>) {
    forall d :: d in ds' <==> d in ds || (d.work >= n && IsDispatch(c, issues, d))
  }

  /** The row of an approved unit just as it is created. */
  ghost predicate IsNewUnit(c: Grant, issue: Issue) {
    && IsUnit(c, issue) && UnitOf(c.units, issue.bind.value.key).Some?
    && issue == UnitIssue(c, issue.bind.value.key)
  }

  /** Every row since position n is a new unit among `key` and its predecessors. */
  ghost predicate CreatedUnder(c: Grant, issues: seq<Issue>, n: nat, key: Key) {
    forall i :: n <= i < |issues| ==>
      IsNewUnit(c, issues[i]) && Reaches(PolicyGraph(c.units), key, issues[i].bind.value.key)
  }

  lemma ReturnCloses(g: Graph, key: Key, d: Key, p: seq<Key>)
    requires Edge(g, key, d) && PathFrom(g, d, key, p)
    ensures IsCycle(g, [key] + p)
  {
    var q := [key] + p;
    forall i | 0 <= i < |q| - 1
      ensures Edge(g, q[i], q[i + 1])
    {
      if i > 0 {
        assert q[i] == p[i - 1] && q[i + 1] == p[i];
      }
    }
  }

  lemma NoReturn(g: Graph, key: Key, d: Key)
    requires Acyclic(g) && Edge(g, key, d)
    ensures !Reaches(g, d, key)
  {
    forall p
      ensures !PathFrom(g, d, key, p)
    {
      if PathFrom(g, d, key, p) {
        ReturnCloses(g, key, d, p);
      }
    }
  }

  /** Along any path from a created unit every unit is created. */
  lemma {:induction false} ClosureCreated(c: Grant, issues: seq<Issue>, p: seq<Key>)
    requires PredecessorsFirst(c, issues) && IsPath(PolicyGraph(c.units), p) && HasUnit(issues, BindFor(c, p[0]))
    ensures HasUnit(issues, BindFor(c, p[|p| - 1]))
    decreases |p|
  {
    if |p| > 1 {
      var i :| 0 <= i < |issues| && issues[i].bind == Some(BindFor(c, p[0]));
      assert IsUnit(c, issues[i]) && Edge(PolicyGraph(c.units), p[0], p[1]);
      assert HasUnit(issues[..i], BindFor(c, p[1]));
      var j :| 0 <= j < i && issues[..i][j].bind == Some(BindFor(c, p[1]));
      assert issues[j].bind == Some(BindFor(c, p[1]));
      var rest := p[1..];
      forall k | 0 <= k < |rest| - 1
        ensures Edge(PolicyGraph(c.units), rest[k], rest[k + 1])
      {
        assert Edge(PolicyGraph(c.units), p[k + 1], p[k + 2]);
      }
      ClosureCreated(c, issues, rest);
    }
  }

  function LinksFrom(predecessors: seq<IssueId>, id: IssueId): set<Link> {
    set j | 0 <= j < |predecessors| :: Link(predecessors[j], id)
  }

  function DispatchOf(unit: Unit, id: IssueId): set<Dispatch> {
    if unit.executor.Some? then {Dispatch(id, unit.executor.value)} else {}
  }

  /** The keys not yet on the path being walked; walking on makes them fewer. */
  ghost function OffPath(g: Graph, stack: seq<Key>): set<Key> { g.Keys - (set k | k in stack) }

  lemma WalkEnds(g: Graph, stack: seq<Key>, key: Key)
    requires Acyclic(g) && key in g
    requires stack != [] ==> IsPath(g, stack) && Edge(g, stack[|stack| - 1], key)
    ensures IsPath(g, stack + [key]) && OffPath(g, stack + [key]) < OffPath(g, stack)
  {
    PushPath(g, stack, key);
    if stack != [] {
      AcyclicPushFresh(g, stack, key);
    }
    assert (set k | k in stack + [key]) == (set k | k in stack) + {key};
    assert key in OffPath(g, stack);
  }

  class DeliveryStore {
    var issues: seq<Issue>
    var links: set<Link>
    var dispatches: set<Dispatch>

    constructor (issues: seq<Issue>, links: set<Link>, dispatches: set<Dispatch>)
      ensures this.issues == issues && this.links == links && this.dispatches == dispatches
    {
      this.issues, this.links, this.dispatches := issues, links, dispatches;
    }

    /** Append the row of a unit whose predecessors are at hand, with its links and its dispatch. */
    method AddUnit(c: Grant, key: Key, predecessors: seq<IssueId>) returns (id: IssueId)
      requires AcceptedPolicy(c.units) && WellFormed(c, issues) && key in PolicyGraph(c.units)
      requires !HasUnit(issues, BindFor(c, key))
      requires |predecessors| == |PolicyGraph(c.units)[key]|
      requires forall j :: 0 <= j < |predecessors| ==>
        predecessors[j] < |issues| && issues[predecessors[j]].bind == Some(BindFor(c, PolicyGraph(c.units)[key][j]))
      modifies this
      ensures id == |old(issues)| && UnitOf(c.units, key).Some? && issues == old(issues) + [UnitIssue(c, key)]
      ensures WellFormed(c, issues)
      ensures LinksAdded(c, issues, id, old(links), links)
      ensures DispatchesAdded(c, issues, id, old(dispatches), dispatches)
    {
      UnitOfByKey(c.units, key);
      AddedWellFormed(c, issues, key, predecessors);
      AddedLinks(c, issues, key, predecessors);
      AddedDispatch(c, issues, key, dispatches);
      id := |issues|;
      issues := issues + [UnitIssue(c, key)];
      links := links + LinksFrom(predecessors, id);
      dispatches := dispatches + DispatchOf(UnitOf(c.units, key).value, id);
    }

    /** The same, seen from where the creation of the unit and its predecessors started. */
    method AddLast(c: Grant, key: Key, predecessors: seq<IssueId>, ghost n: nat, ghost l0: set<Link>, ghost d0: set<Dispatch>)
        returns (id: IssueId)
      requires AcceptedPolicy(c.units) && WellFormed(c, issues) && key in PolicyGraph(c.units)
      requires !HasUnit(issues, BindFor(c, key))
      requires |predecessors| == |PolicyGraph(c.units)[key]|
      requires forall j :: 0 <= j < |predecessors| ==>
        predecessors[j] < |issues| && issues[predecessors[j]].bind == Some(BindFor(c, PolicyGraph(c.units)[key][j]))
      requires n <= |issues| && CreatedUnder(c, issues, n, key)
      requires LinksAdded(c, issues, n, l0, links) && DispatchesAdded(c, issues, n, d0, dispatches)
      modifies this
      ensures WellFormed(c, issues) && old(issues) <= issues && id < |issues| && issues[id].bind == Some(BindFor(c, key))
      ensures CreatedUnder(c, issues, n, key)
      ensures LinksAdded(c, issues, n, l0, links) && DispatchesAdded(c, issues, n, d0, dispatches)
    {
      id := AddUnit(c, key, predecessors);
      ReachesSelf(PolicyGraph(c.units), key);
      Compose(c, old(issues), issues, n, l0, old(links), links, d0, old(dispatches), dispatches);
    }

    /** The rows of everything a unit depends on, in order. */
    method InstantiatePredecessors(c: Grant, key: Key, ghost path: seq<Key>) returns (predecessors: seq<IssueId>)
      requires AcceptedPolicy(c.units) && WellFormed(c, issues) && key in PolicyGraph(c.units)
      requires path != [] && IsPath(PolicyGraph(c.units), path) && path[|path| - 1] == key
      requires !HasUnit(issues, BindFor(c, key))
      modifies this
      ensures WellFormed(c, issues) && old(issues) <= issues && !HasUnit(issues, BindFor(c, key))
      ensures |predecessors| == |PolicyGraph(c.units)[key]|
      ensures forall j :: 0 <= j < |predecessors| ==>
        predecessors[j] < |issues| && issues[predecessors[j]].bind == Some(BindFor(c, PolicyGraph(c.units)[key][j]))
      ensures CreatedUnder(c, issues, |old(issues)|, key)
      ensures LinksAdded(c, issues, |old(issues)|, old(links), links)
      ensures DispatchesAdded(c, issues, |old(issues)|, old(dispatches), dispatches)
      decreases OffPath(PolicyGraph(c.units), path), 1
    {
      var deps := PolicyGraph(c.units)[key];
      ghost var n := |issues|;
      predecessors := [];
      for i := 0 to |deps|
        invariant WellFormed(c, issues) && old(issues) <= issues && |predecessors| == i
        invariant forall j :: 0 <= j < i ==> predecessors[j] < |issues| && issues[predecessors[j]].bind == Some(BindFor(c, deps[j]))
        invariant CreatedUnder(c, issues, n, key) && !HasUnit(issues, BindFor(c, key))
        invariant LinksAdded(c, issues, n, old(links), links)
        invariant DispatchesAdded(c, issues, n, old(dispatches), dispatches)
      {
        assert Edge(PolicyGraph(c.units), key, deps[i]);
        ghost var mid, midLinks, midDispatches := issues, links, dispatches;
        var p := Instantiate(c, deps[i], path);
        CreatedBelow(c, mid, issues, n, key, deps[i]);
        Compose(c, mid, issues, n, old(links), midLinks, links, old(dispatches), midDispatches, dispatches);
        predecessors := predecessors + [p];
      }
    }

    /** The row of a unit, creating it and whatever it depends on if need be. */
    method Instantiate(c: Grant, key: Key, ghost stack: seq<Key>) returns (id: IssueId)
      requires AcceptedPolicy(c.units) && WellFormed(c, issues) && key in PolicyGraph(c.units)
      requires stack != [] ==> IsPath(PolicyGraph(c.units), stack) && Edge(PolicyGraph(c.units), stack[|stack| - 1], key)
      modifies this
      ensures WellFormed(c, issues) && old(issues) <= issues
      ensures id < |issues| && issues[id].bind == Some(BindFor(c, key))
      ensures CreatedUnder(c, issues, |old(issues)|, key)
      ensures LinksAdded(c, issues, |old(issues)|, old(links), links)
      ensures DispatchesAdded(c, issues, |old(issues)|, old(dispatches), dispatches)
      ensures HasUnit(old(issues), BindFor(c, key)) ==> issues == old(issues) && links == old(links) && dispatches == old(dispatches)
      decreases OffPath(PolicyGraph(c.units), stack), 0
    {
      var existing := FindUnit(issues, BindFor(c, key));
      if existing.Some? {
        return existing.value;
      }
      WalkEnds(PolicyGraph(c.units), stack, key);
      var predecessors := InstantiatePredecessors(c, key, stack + [key]);
      id := AddLast(c, key, predecessors, |old(issues)|, old(links), old(dispatches));
    }

    /** One requested unit more. */
    method InstantiateNext(c: Grant, key: Key, ghost keys: seq<Key>, ghost n: nat, ghost l0: set<Link>, ghost d0: set<Dispatch>)
        returns (id: IssueId)
      requires AcceptedPolicy(c.units) && WellFormed(c, issues) && key in PolicyGraph(c.units)
      requires n <= |issues| && CreatedUnderSome(c, issues, n, keys)
      requires LinksAdded(c, issues, n, l0, links) && DispatchesAdded(c, issues, n, d0, dispatches)
      modifies this
      ensures WellFormed(c, issues) && old(issues) <= issues && id < |issues| && issues[id].bind == Some(BindFor(c, key))
      ensures CreatedUnderSome(c, issues, n, keys + [key])
      ensures LinksAdded(c, issues, n, l0, links) && DispatchesAdded(c, issues, n, d0, dispatches)
    {
      id := Instantiate(c, key, []);
      CreatedUnderNext(c, old(issues), issues, n, keys, key);
      Compose(c, old(issues), issues, n, l0, old(links), links, d0, old(dispatches), dispatches);
    }

    method InstantiateEach(c: Grant, keys: seq<Key>) returns (ids: seq<IssueId>)
      requires AcceptedPolicy(c.units) && WellFormed(c, issues)
      requires forall k :: k in keys ==> k in PolicyGraph(c.units)
      modifies this
      ensures WellFormed(c, issues) && old(issues) <= issues
      ensures |ids| == |keys| && forall i :: 0 <= i < |keys| ==> ids[i] < |issues| && issues[ids[i]].bind == Some(BindFor(c, keys[i]))
      ensures CreatedUnderSome(c, issues, |old(issues)|, keys)
      ensures LinksAdded(c, issues, |old(issues)|, old(links), links)
      ensures DispatchesAdded(c, issues, |old(issues)|, old(dispatches), dispatches)
    {
      ids := [];
      ghost var n := |issues|;
      for i := 0 to |keys|
        invariant WellFormed(c, issues) && old(issues) <= issues && |ids| == i
        invariant forall j :: 0 <= j < i ==> ids[j] < |issues| && issues[ids[j]].bind == Some(BindFor(c, keys[j]))
        invariant CreatedUnderSome(c, issues, n, keys[..i])
        invariant LinksAdded(c, issues, n, old(links), links)
        invariant DispatchesAdded(c, issues, n, old(dispatches), dispatches)
      {
        var id := InstantiateNext(c, keys[i], keys[..i], n, old(links), old(dispatches));
        assert keys[..i] + [keys[i]] == keys[..i + 1];
        ids := ids + [id];
      }
      assert keys[..|keys|] == keys;
    }

    /**
     * The requested units of an accepted policy, in order. Afterwards a unit has a row
     * exactly when it had one or lies in the dependency closure of the requested keys;
     * exactly the edges into new rows are linked; a second call changes nothing.
     */
    method InstantiateApprovedUnits(c: Grant, keys: seq<Key>) returns (ids: seq<IssueId>)
      requires AcceptedPolicy(c.units) && WellFormed(c, issues)
      requires forall k :: k in keys ==> k in PolicyGraph(c.units)
      modifies this
      ensures WellFormed(c, issues) && old(issues) <= issues
      ensures |ids| == |keys| && forall i :: 0 <= i < |keys| ==> ids[i] < |issues| && issues[ids[i]].bind == Some(BindFor(c, keys[i]))
      ensures forall k :: HasUnit(issues, BindFor(c, k)) <==>
        HasUnit(old(issues), BindFor(c, k)) || exists i :: 0 <= i < |keys| && Reaches(PolicyGraph(c.units), keys[i], k)
      ensures forall i :: |old(issues)| <= i < |issues| ==> IsNewUnit(c, issues[i])
      ensures LinksAdded(c, issues, |old(issues)|, old(links), links)
      ensures DispatchesAdded(c, issues, |old(issues)|, old(dispatches), dispatches)
      ensures (forall k :: k in keys ==> HasUnit(old(issues), BindFor(c, k))) ==>
        issues == old(issues) && links == old(links) && dispatches == old(dispatches)
    {
      ids := InstantiateEach(c, keys);
      ClosureExact(c, old(issues), issues, keys, ids);
      SecondTimeNothing(c, old(issues), issues, keys, old(links), links, old(dispatches), dispatches);
    }
  }

  /** Every row since position n is a unit some requested key depends on. */
  ghost predicate CreatedUnderSome(c: Grant, issues: seq<Issue>, n: nat, keys: seq<Key>) {
    forall x :: n <= x < |issues| ==>
      IsNewUnit(c, issues[x]) && exists j :: 0 <= j < |keys| && Reaches(PolicyGraph(c.units), keys[j], issues[x].bind.value.key)
  }

  lemma CreatedUnderNext(c: Grant, mid: seq<Issue>, issues: seq<Issue>, n: nat, keys: seq<Key>, key: Key)
    requires n <= |mid| && mid <= issues && CreatedUnderSome(c, mid, n, keys) && CreatedUnder(c, issues, |mid|, key)
    ensures CreatedUnderSome(c, issues, n, keys + [key])
  {
    forall x | n <= x < |issues|
      ensures IsNewUnit(c, issues[x])
      ensures exists j :: 0 <= j < |keys + [key]| && Reaches(PolicyGraph(c.units), (keys + [key])[j], issues[x].bind.value.key)
    {
      if x < |mid| {
        assert issues[x] == mid[x];
        var j :| 0 <= j < |keys| && Reaches(PolicyGraph(c.units), keys[j], mid[x].bind.value.key);
        assert (keys + [key])[j] == keys[j];
      } else {
        assert (keys + [key])[|keys|] == key;
      }
    }
  }

  lemma HasUnitPrefix(issues: seq<Issue>, issues': seq<Issue>, b: Bind)
    requires issues <= issues' && HasUnit(issues, b)
    ensures HasUnit(issues', b)
  {
    var i :| 0 <= i < |issues| && issues[i].bind == Some(b);
    assert issues'[i] == issues[i];
  }

  lemma ClosureExact(c: Grant, before: seq<Issue>, issues: seq<Issue>, keys: seq<Key>, ids: seq<IssueId>)
    requires WellFormed(c, issues) && before <= issues && |ids| == |keys|
    requires forall j :: 0 <= j < |keys| ==> ids[j] < |issues| && issues[ids[j]].bind == Some(BindFor(c, keys[j]))
    requires CreatedUnderSome(c, issues, |before|, keys)
    ensures forall k :: HasUnit(issues, BindFor(c, k)) <==>
      HasUnit(before, BindFor(c, k)) || exists i :: 0 <= i < |keys| && Reaches(PolicyGraph(c.units), keys[i], k)
  {
    forall k
      ensures HasUnit(issues, BindFor(c, k)) <==>
        HasUnit(before, BindFor(c, k)) || exists i :: 0 <= i < |keys| && Reaches(PolicyGraph(c.units), keys[i], k)
    {
      if HasUnit(issues, BindFor(c, k)) {
        var x :| 0 <= x < |issues| && issues[x].bind == Some(BindFor(c, k));
        if x < |before| {
          assert before[x].bind == Some(BindFor(c, k));
        }
      }
      if HasUnit(before, BindFor(c, k)) {
        HasUnitPrefix(before, issues, BindFor(c, k));
      }
      if i :| 0 <= i < |keys| && Reaches(PolicyGraph(c.units), keys[i], k) {
        var p :| PathFrom(PolicyGraph(c.units), keys[i], k, p);
        assert HasUnit(issues, BindFor(c, p[0]));
        ClosureCreated(c, issues, p);
      }
    }
  }

  lemma NoNewRow(c: Grant, before: seq<Issue>, issues: seq<Issue>, keys: seq<Key>)
    requires WellFormed(c, before) && BindsUnique(issues) && before <= issues && CreatedUnderSome(c, issues, |before|, keys)
    requires forall k :: k in keys ==> HasUnit(before, BindFor(c, k))
    ensures issues == before
  {
    if |issues| > |before| {
      var k := issues[|before|].bind.value.key;
      var j :| 0 <= j < |keys| && Reaches(PolicyGraph(c.units), keys[j], k);
      var p :| PathFrom(PolicyGraph(c.units), keys[j], k, p);
      ClosureCreated(c, before, p);
    }
  }

  /** Asking again for units that have rows changes nothing. */
  lemma SecondTimeNothing(c: Grant, before: seq<Issue>, issues: seq<Issue>, keys: seq<Key>,
                          l0: set<Link>, l1: set<Link>, d0: set<Dispatch>, d1: set<Dispatch>)
    requires WellFormed(c, before) && BindsUnique(issues) && before <= issues && CreatedUnderSome(c, issues, |before|, keys)
    requires LinksAdded(c, issues, |before|, l0, l1) && DispatchesAdded(c, issues, |before|, d0, d1)
    ensures (forall k :: k in keys ==> HasUnit(before, BindFor(c, k))) ==> issues == before && l1 == l0 && d1 == d0
  {
    if forall k :: k in keys ==> HasUnit(before, BindFor(c, k)) {
      NoNewRow(c, before, issues, keys);
    }
  }

  lemma CreatedBelow(c: Grant, mid: seq<Issue>, issues: seq<Issue>, n: nat, key: Key, d: Key)
    requires AcceptedPolicy(c.units) && Edge(PolicyGraph(c.units), key, d)
    requires n <= |mid| && mid <= issues && CreatedUnder(c, mid, n, key) && !HasUnit(mid, BindFor(c, key))
    requires CreatedUnder(c, issues, |mid|, d)
    ensures CreatedUnder(c, issues, n, key) && !HasUnit(issues, BindFor(c, key))
  {
    var g := PolicyGraph(c.units);
    forall i | n <= i < |issues|
      ensures IsNewUnit(c, issues[i]) && Reaches(g, key, issues[i].bind.value.key)
    {
      if i < |mid| {
        assert issues[i] == mid[i];
      } else {
        ReachesStep(g, key, d, issues[i].bind.value.key);
      }
    }
    NoReturn(g, key, d);
    forall i | 0 <= i < |issues|
      ensures issues[i].bind != Some(BindFor(c, key))
    {
      if i < |mid| {
        assert issues[i] == mid[i];
      }
    }
  }

  /** Two stretches of creation in a row add up. */
  lemma Compose(c: Grant, mid: seq<Issue>, issues: seq<Issue>, n: nat,
                l0: set<Link>, l1: set<Link>, l2: set<Link>, d0: set<Dispatch>, d1: set<Dispatch>, d2: set<Dispatch>)
    requires n <= |mid| && mid <= issues
    requires LinksAdded(c, mid, n, l0, l1) && LinksAdded(c, issues, |mid|, l1, l2)
    requires DispatchesAdded(c, mid, n, d0, d1) && DispatchesAdded(c, issues, |mid|, d1, d2)
    requires WellFormed(c, mid) && WellFormed(c, issues)
    ensures LinksAdded(c, issues, n, l0, l2) && DispatchesAdded(c, issues, n, d0, d2)
  {
    forall l
      ensures l in l2 <==> l in l0 || (l.blocked >= n && IsEdgeLink(c, issues, l))
    {
      if l.blocked < |mid| {
        EdgeLinkStable(c, mid, issues, l);
      }
    }
    forall d
      ensures d in d2 <==> d in d0 || (d.work >= n && IsDispatch(c, issues, d))
    {
      if d.work < |mid| {
        assert issues[d.work] == mid[d.work];
      }
    }
  }

  /** An edge into an existing row starts at a row created before it, so later rows add none. */
  lemma EdgeLinkStable(c: Grant, mid: seq<Issue>, issues: seq<Issue>, l: Link)
    requires mid <= issues && WellFormed(c, mid) && WellFormed(c, issues) && l.blocked < |mid|
    ensures IsEdgeLink(c, issues, l) <==> IsEdgeLink(c, mid, l)
  {
    assert issues[l.blocked] == mid[l.blocked];
    if IsEdgeLink(c, issues, l) {
      var d := issues[l.blocker].bind.value.key;
      assert HasUnit(issues[..l.blocked], BindFor(c, d));
      var j :| 0 <= j < l.blocked && issues[..l.blocked][j].bind == Some(BindFor(c, d));
      assert issues[j].bind == issues[l.blocker].bind;
      assert j == l.blocker;
      assert mid[j] == issues[j];
    }
    if IsEdgeLink(c, mid, l) {
      assert issues[l.blocker] == mid[l.blocker];
    }
  }

  lemma AddedPredecessorsFirst(c: Grant, before: seq<Issue>, key: Key, issue: Issue)
    requires PredecessorsFirst(c, before) && key in PolicyGraph(c.units) && issue.bind == Some(BindFor(c, key))
    requires forall d :: d in PolicyGraph(c.units)[key] ==> HasUnit(before, BindFor(c, d))
    ensures PredecessorsFirst(c, before + [issue])
  {
    var issues := before + [issue];
    forall i | 0 <= i < |issues| && IsUnit(c, issues[i])
      ensures issues[i].bind.value.key in PolicyGraph(c.units)
      ensures forall d :: d in PolicyGraph(c.units)[issues[i].bind.value.key] ==> HasUnit(issues[..i], BindFor(c, d))
    {
      if i < |before| {
        assert issues[i] == before[i] && issues[..i] == before[..i];
      } else {
        assert issues[..i] == before;
      }
    }
  }

  lemma AddedUnique(before: seq<Issue>, issue: Issue)
    requires BindsUnique(before) && issue.bind.Some? && !HasUnit(before, issue.bind.value)
    ensures BindsUnique(before + [issue])
  {
  }

  lemma AddedWellFormed(c: Grant, before: seq<Issue>, key: Key, predecessors: seq<IssueId>)
    requires WellFormed(c, before) && key in PolicyGraph(c.units) && UnitOf(c.units, key).Some?
    requires !HasUnit(before, BindFor(c, key))
    requires |predecessors| == |PolicyGraph(c.units)[key]|
    requires forall j :: 0 <= j < |predecessors| ==>
      predecessors[j] < |before| && before[predecessors[j]].bind == Some(BindFor(c, PolicyGraph(c.units)[key][j]))
    ensures WellFormed(c, before + [UnitIssue(c, key)])
  {
    forall d | d in PolicyGraph(c.units)[key]
      ensures HasUnit(before, BindFor(c, d))
    {
      var j :| 0 <= j < |predecessors| && PolicyGraph(c.units)[key][j] == d;
      assert before[predecessors[j]].bind == Some(BindFor(c, d));
    }
    AddedPredecessorsFirst(c, before, key, UnitIssue(c, key));
    AddedUnique(before, UnitIssue(c, key));
  }

  /** Appending a unit dispatches exactly it, if it names an executor. */
  lemma AddedDispatch(c: Grant, before: seq<Issue>, key: Key, dispatches: set<Dispatch>)
    requires UnitOf(c.units, key).Some?
    ensures DispatchesAdded(c, before + [UnitIssue(c, key)], |before|, dispatches,
                            dispatches + DispatchOf(UnitOf(c.units, key).value, |before|))
  {
  }

  lemma AddedLinks(c: Grant, before: seq<Issue>, key: Key, predecessors: seq<IssueId>)
    requires key in PolicyGraph(c.units) && UnitOf(c.units, key).Some? && WellFormed(c, before + [UnitIssue(c, key)])
    requires |predecessors| == |PolicyGraph(c.units)[key]|
    requires forall j :: 0 <= j < |predecessors| ==>
      predecessors[j] < |before| && before[predecessors[j]].bind == Some(BindFor(c, PolicyGraph(c.units)[key][j]))
    ensures var issues := before + [UnitIssue(c, key)];
      forall l :: l in LinksFrom(predecessors, |before|) <==> l.blocked >= |before| && IsEdgeLink(c, issues, l)
  {
    var issues := before + [UnitIssue(c, key)];
    var deps := PolicyGraph(c.units)[key];
    forall j | 0 <= j < |predecessors|
      ensures IsEdgeLink(c, issues, Link(predecessors[j], |before|))
    {
      assert issues[predecessors[j]] == before[predecessors[j]];
    }
    forall l: Link | l.blocked >= |before| && IsEdgeLink(c, issues, l)
      ensures l.blocked == |before| && exists j :: 0 <= j < |predecessors| && predecessors[j] == l.blocker
    {
      SourceIsPredecessor(issues, deps, c, predecessors, l.blocker);
    }
  }

  lemma SourceIsPredecessor(issues: seq<Issue>, deps: seq<Key>, c: Grant, predecessors: seq<IssueId>, i: IssueId)
    requires BindsUnique(issues) && i < |issues| && IsUnit(c, issues[i]) && issues[i].bind.value.key in deps
    requires |predecessors| == |deps|
    requires forall j :: 0 <= j < |deps| ==> predecessors[j] < |issues| && issues[predecessors[j]].bind == Some(BindFor(c, deps[j]))
    ensures exists j :: 0 <= j < |predecessors| && predecessors[j] == i
  {
    var j :| 0 <= j < |deps| && deps[j] == issues[i].bind.value.key;
    assert issues[predecessors[j]].bind == issues[i].bind;
    assert predecessors[j] == i;
  }
}
