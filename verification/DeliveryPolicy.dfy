/** The dependency graph of a delivery package and the depth-first check that admits it. */
module DeliveryGraph {

  type Key = string

  // Each unit's key with the keys it depends on.
  type Graph = map<Key, seq<Key>>

  predicate Edge(g: Graph, k: Key, d: Key) { k in g && d in g[k] }

  ghost predicate IsPath(g: Graph, p: seq<Key>) {
    |p| >= 1 && forall i :: 0 <= i < |p| - 1 ==> Edge(g, p[i], p[i + 1])
  }

  ghost predicate IsCycle(g: Graph, p: seq<Key>) {
    IsPath(g, p) && |p| >= 2 && p[0] == p[|p| - 1]
  }

  ghost predicate Acyclic(g: Graph) { forall p :: !IsCycle(g, p) }

  ghost predicate AllKnown(g: Graph) { forall k, d :: Edge(g, k, d) ==> d in g }

  ghost predicate PathFrom(g: Graph, k: Key, d: Key, p: seq<Key>) {
    IsPath(g, p) && p[0] == k && p[|p| - 1] == d
  }

  /** d is k itself or one of its direct or transitive predecessors. */
  ghost predicate Reaches(g: Graph, k: Key, d: Key) { exists p :: PathFrom(g, k, d, p) }

  lemma ReachesSelf(g: Graph, k: Key)
    ensures Reaches(g, k, k)
  {
    assert PathFrom(g, k, k, [k]);
  }

  lemma ReachesStep(g: Graph, k: Key, d: Key, e: Key)
    requires Edge(g, k, d) && Reaches(g, d, e)
    ensures Reaches(g, k, e)
  {
    var p :| PathFrom(g, d, e, p);
    var q := [k] + p;
    forall i | 0 <= i < |q| - 1
      ensures Edge(g, q[i], q[i + 1])
    {
      if i > 0 {
        assert q[i] == p[i - 1] && q[i + 1] == p[i];
      }
    }
    assert PathFrom(g, k, e, q);
  }

  /** A path extended by an edge that leads back into it closes a cycle. */
  lemma ClosesCycle(g: Graph, stack: seq<Key>, key: Key, i: nat)
    requires IsPath(g, stack) && Edge(g, stack[|stack| - 1], key) && i < |stack| && stack[i] == key
    ensures IsCycle(g, stack[i..] + [key])
  {
    var p := stack[i..] + [key];
    forall j | 0 <= j < |p| - 1
      ensures Edge(g, p[j], p[j + 1])
    {
      if j < |p| - 2 {
        assert p[j] == stack[i + j] && p[j + 1] == stack[i + j + 1];
      }
    }
  }

  lemma PushPath(g: Graph, stack: seq<Key>, key: Key)
    requires stack != [] ==> IsPath(g, stack) && Edge(g, stack[|stack| - 1], key)
    ensures IsPath(g, stack + [key])
  {
    var p := stack + [key];
    forall j | 0 <= j < |p| - 1
      ensures Edge(g, p[j], p[j + 1])
    {
      if j < |stack| - 1 {
        assert p[j] == stack[j] && p[j + 1] == stack[j + 1];
      }
    }
  }

  /** In an acyclic graph the next key along a path is new, so walks over a finite graph end. */
  lemma AcyclicPushFresh(g: Graph, stack: seq<Key>, key: Key)
    requires Acyclic(g) && stack != [] && IsPath(g, stack) && Edge(g, stack[|stack| - 1], key)
    ensures key !in stack
  {
    if key in stack {
      var i :| 0 <= i < |stack| && stack[i] == key;
      ClosesCycle(g, stack, key, i);
    }
  }

  // ------------------------------------------------------- topological order

  /** Every key of the order has all its predecessors earlier in it. */
  ghost predicate Topological(g: Graph, order: seq<Key>) {
    forall i :: 0 <= i < |order| ==> order[i] in g && forall d :: d in g[order[i]] ==> d in order[..i]
  }

  lemma {:induction false} RankFalls(g: Graph, order: seq<Key>, p: seq<Key>, i: nat)
    requires Topological(g, order) && IsPath(g, p) && i < |order| && order[i] == p[0]
    ensures |p| == 1 || p[|p| - 1] in order[..i]
    decreases |p|
  {
    if |p| > 1 {
      assert Edge(g, p[0], p[1]);
      var j :| 0 <= j < i && order[j] == p[1];
      var rest := p[1..];
      forall k | 0 <= k < |rest| - 1
        ensures Edge(g, rest[k], rest[k + 1])
      {
        assert Edge(g, p[k + 1], p[k + 2]);
      }
      RankFalls(g, order, rest, j);
      assert rest[|rest| - 1] == p[|p| - 1];
      if |rest| > 1 {
        assert order[..j] <= order[..i];
      }
    }
  }

  function FirstIndex(order: seq<Key>, k: Key): (i: nat)
    requires k in order
    ensures i < |order| && order[i] == k && k !in order[..i]
  {
    if order[0] == k then 0
    else
      var rest := FirstIndex(order[1..], k);
      assert order[..1 + rest] == [order[0]] + order[1..][..rest];
      1 + rest
  }

  /** A graph all of whose keys are listed predecessors-first is acyclic, and names no unknown predecessor. */
  lemma TopologicalIsAcyclic(g: Graph, order: seq<Key>)
    requires Topological(g, order) && forall k :: k in g ==> k in order
    ensures Acyclic(g) && AllKnown(g)
  {
    forall p
      ensures !IsCycle(g, p)
    {
      if IsCycle(g, p) {
        assert Edge(g, p[0], p[1]);
        RankFalls(g, order, p, FirstIndex(order, p[0]));
      }
    }
    forall k, d | Edge(g, k, d)
      ensures d in g
    {
      var i := FirstIndex(order, k);
      assert d in order[..i];
      var j :| 0 <= j < i && order[j] == d;
    }
  }
}

/** parseDeliveryPolicy's check of keys, predecessors and technical checks. */
module DeliveryPolicy {
  import opened Wrappers
  import opened DeliveryGraph

  type ActorId = nat

  datatype Check = Check(workflowId: nat, job: string)

  datatype Unit = Unit(
    key: Key, title: string, criteria: seq<nat>, dependsOn: seq<Key>, checks: seq<Check>,
    executor: Option<ActorId>, maxAttempts: nat)

  datatype Verdict = Accepted | DuplicateKeys | DependencyCycle | UnknownPredecessor | UncheckedPredecessor

  ghost predicate UniqueKeys(units: seq<Unit>) {
    forall i, j :: 0 <= i < j < |units| ==> units[i].key != units[j].key
  }

  /** The units by key, a later one with the same key replacing an earlier one. */
  function ByKey(units: seq<Unit>): (m: map<Key, Unit>)
    ensures forall k :: k in m ==> m[k].key == k && m[k] in units
    ensures forall i :: 0 <= i < |units| ==> units[i].key in m
  {
    if units == [] then map[]
    else
      var last := units[|units| - 1];
      ByKey(units[..|units| - 1])[last.key := last]
  }

  function GraphOf(m: map<Key, Unit>): Graph { map k | k in m :: m[k].dependsOn }

  /** The graph a list of units describes. */
  function PolicyGraph(units: seq<Unit>): Graph { GraphOf(ByKey(units)) }

  ghost predicate PredecessorsChecked(units: seq<Unit>) {
    forall i, d :: 0 <= i < |units| && d in units[i].dependsOn && d in ByKey(units) ==> ByKey(units)[d].checks != []
  }

  lemma UniqueSnoc(units: seq<Unit>)
    requires units != []
    ensures var init, last := units[..|units| - 1], units[|units| - 1];
      UniqueKeys(units) <==> UniqueKeys(init) && last.key !in ByKey(init)
  {
    var init, last := units[..|units| - 1], units[|units| - 1];
    if last.key in ByKey(init) {
      var i :| 0 <= i < |init| && init[i] == ByKey(init)[last.key];
      assert units[i].key == units[|units| - 1].key;
    } else if UniqueKeys(init) {
      forall i, j | 0 <= i < j < |units|
        ensures units[i].key != units[j].key
      {
        assert units[i] == init[i];
        assert j < |init| ==> units[j] == init[j];
        assert init[i].key in ByKey(init);
      }
    }
    if UniqueKeys(units) {
      forall i, j | 0 <= i < j < |init|
        ensures init[i].key != init[j].key
      {
        assert units[i].key != units[j].key;
      }
    }
  }

  /** The map is as large as the list exactly when no key occurs twice. */
  lemma {:induction false} ByKeySize(units: seq<Unit>)
    ensures |ByKey(units)| <= |units|
    ensures |ByKey(units)| == |units| <==> UniqueKeys(units)
    decreases |units|
  {
    if units != [] {
      var init, last := units[..|units| - 1], units[|units| - 1];
      ByKeySize(init);
      UniqueSnoc(units);
      UpdateSize(ByKey(init), last.key, last);
    }
  }

  lemma UpdateSize(m: map<Key, Unit>, k: Key, u: Unit)
    ensures |m[k := u]| == |m| + (if k in m then 0 else 1)
  {
    assert m[k := u].Keys == m.Keys + {k};
    assert |m[k := u]| == |m[k := u].Keys| && |m| == |m.Keys|;
  }

  /** The grey and black sets of the depth-first search. */
  class Visitor {
    const units: map<Key, Unit>
    var visiting: set<Key>
    var visited: set<Key>
    ghost var order: seq<Key>

    ghost predicate Valid()
      reads this
    {
      && Topological(GraphOf(units), order)
      && (forall k :: k in visited <==> k in order)
    }

    constructor (units: map<Key, Unit>)
      ensures this.units == units && Valid() && visiting == {} && order == []
    {
      this.units := units;
      visiting, visited := {}, {};
      order := [];
    }

    /**
     * Visit a key reached along the path `stack`. On success every key it needs is
     * listed before it; a cycle or an unknown key is reported only when there is one.
     */
    method Visit(key: Key, ghost stack: seq<Key>) returns (r: Verdict)
      requires Valid()
      requires forall k :: k in visiting <==> k in stack
      requires visiting <= units.Keys
      requires stack != [] ==> IsPath(GraphOf(units), stack) && Edge(GraphOf(units), stack[|stack| - 1], key)
      requires stack == [] ==> key in units
      modifies this
      ensures r.Accepted? ==> Valid() && visiting == old(visiting) && key in order && old(order) <= order
      ensures r.Accepted? || r.DependencyCycle? || r.UnknownPredecessor?
      ensures r.DependencyCycle? ==> exists p :: IsCycle(GraphOf(units), p)
      ensures r.UnknownPredecessor? ==> !AllKnown(GraphOf(units))
      decreases units.Keys - visiting
    {
      ghost var g := GraphOf(units);
      if key in visiting {
        ghost var i :| 0 <= i < |stack| && stack[i] == key;
        ClosesCycle(g, stack, key, i);
        return DependencyCycle;
      }
      if key in visited {
        return Accepted;
      }
      if key !in units {
        return UnknownPredecessor;
      }
      PushPath(g, stack, key);
      ghost var path := stack + [key];
      ghost var grey := visiting;
      visiting := visiting + {key};
      var deps := units[key].dependsOn;
      for i := 0 to |deps|
        invariant Valid() && visiting == grey + {key} && old(order) <= order
        invariant forall j :: 0 <= j < i ==> deps[j] in order
      {
        assert Edge(g, key, deps[i]);
        r := Visit(deps[i], path);
        if !r.Accepted? {
          return;
        }
      }
      visiting := visiting - {key};
      visited := visited + {key};
      ghost var before := order;
      order := order + [key];
      forall i | 0 <= i < |order|
        ensures order[i] in g && forall d :: d in g[order[i]] ==> d in order[..i]
      {
        if i < |before| {
          assert order[i] == before[i] && order[..i] == before[..i];
        } else {
          assert order[..i] == before;
        }
      }
      r := Accepted;
    }
  }

  /** Visit every unit: the whole graph is acyclic with known predecessors, or a real defect is named. */
  method VisitAll(units: seq<Unit>) returns (r: Verdict)
    ensures r.Accepted? ==> AllKnown(PolicyGraph(units)) && Acyclic(PolicyGraph(units))
    ensures r.Accepted? || r.DependencyCycle? || r.UnknownPredecessor?
    ensures r.DependencyCycle? ==> !Acyclic(PolicyGraph(units))
    ensures r.UnknownPredecessor? ==> !AllKnown(PolicyGraph(units))
  {
    var byKey := ByKey(units);
    var v := new Visitor(byKey);
    for i := 0 to |units|
      invariant v.Valid() && v.visiting == {} && v.units == byKey && fresh(v)
      invariant forall j :: 0 <= j < i ==> units[j].key in v.order
    {
      r := v.Visit(units[i].key, []);
      if !r.Accepted? {
        return;
      }
    }
    forall k | k in PolicyGraph(units)
      ensures k in v.order
    {
      var j :| 0 <= j < |units| && units[j] == byKey[k];
    }
    TopologicalIsAcyclic(PolicyGraph(units), v.order);
    r := Accepted;
  }

  method CheckPredecessors(units: seq<Unit>) returns (ok: bool)
    ensures ok <==> PredecessorsChecked(units)
  {
    var byKey := ByKey(units);
    for i := 0 to |units|
      invariant forall j, d :: 0 <= j < i && d in units[j].dependsOn && d in byKey ==> byKey[d].checks != []
    {
      var deps := units[i].dependsOn;
      for n := 0 to |deps|
        invariant forall m :: 0 <= m < n && deps[m] in byKey ==> byKey[deps[m]].checks != []
      {
        if deps[n] in byKey && byKey[deps[n]].checks == [] {
          return false;
        }
      }
    }
    ok := true;
  }

  /**
   * A policy is accepted exactly when its keys are unique, every predecessor is
   * known, the relation is acyclic and every predecessor carries technical checks;
   * each refusal names a defect the policy really has.
   */
  method ValidateUnits(units: seq<Unit>) returns (r: Verdict)
    ensures r.Accepted? <==> UniqueKeys(units) && AllKnown(PolicyGraph(units)) && Acyclic(PolicyGraph(units)) && PredecessorsChecked(units)
    ensures r.DuplicateKeys? ==> !UniqueKeys(units)
    ensures r.DependencyCycle? ==> UniqueKeys(units) && !Acyclic(PolicyGraph(units))
    ensures r.UnknownPredecessor? ==> UniqueKeys(units) && !AllKnown(PolicyGraph(units))
    ensures r.UncheckedPredecessor? ==>
      UniqueKeys(units) && AllKnown(PolicyGraph(units)) && Acyclic(PolicyGraph(units)) && !PredecessorsChecked(units)
  {
    ByKeySize(units);
    if |ByKey(units)| != |units| {
      return DuplicateKeys;
    }
    r := VisitAll(units);
    if r.Accepted? {
      var ok := CheckPredecessors(units);
      if !ok {
        r := UncheckedPredecessor;
      }
    }
  }

  /** The unit an approved policy holds under a key. */
  function UnitOf(units: seq<Unit>, key: Key): (u: Option<Unit>)
    ensures u.Some? ==> u.value.key == key && u.value in units
    ensures u.None? ==> forall i :: 0 <= i < |units| ==> units[i].key != key
  {
    if units == [] then None
    else if units[0].key == key then Some(units[0])
    else UnitOf(units[1..], key)
  }

  /** With unique keys, looking a unit up by key finds the same one as the map. */
  lemma UnitOfByKey(units: seq<Unit>, key: Key)
    requires UniqueKeys(units)
    ensures UnitOf(units, key).Some? <==> key in ByKey(units)
    ensures key in ByKey(units) ==> UnitOf(units, key) == Some(ByKey(units)[key])
  {
    var u := UnitOf(units, key);
    if u.Some? {
      var i :| 0 <= i < |units| && units[i] == u.value;
      assert units[i].key in ByKey(units);
    }
    if key in ByKey(units) {
      var j :| 0 <= j < |units| && units[j] == ByKey(units)[key];
      assert u.Some?;
      var i :| 0 <= i < |units| && units[i] == u.value;
      assert i == j;
    }
  }
}
