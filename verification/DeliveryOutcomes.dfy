/** What a binding, a created unit and readiness amount to, told in the rows' own fields. */
module DeliveryOutcomes {
  import opened Wrappers
  import opened WorkflowStates
  import opened DeliveryGraph
  import opened DeliveryPolicy
  import opened DeliveryGrant
  import opened DeliveryExecution
  import opened DeliveryRuns
  import opened DeliveryReview

  // ------------------------------------------------------------- what a unit is

  /** The unit of a key in a list of units with unique keys. */
  ghost predicate IsUnitOf(units: seq<Unit>, key: Key, u: Unit) { u in units && u.key == key }

  /** A unit's terms: exactly the root's acceptance lines the unit names, in its order, and the root's other terms. */
  ghost predicate HasTermsOf(t: Terms, u: Unit, root: Terms) {
    && |t.acceptance| == |u.criteria|
    && (forall k :: 0 <= k < |u.criteria| && u.criteria[k] < |root.acceptance| ==> t.acceptance[k] == root.acceptance[u.criteria[k]])
    && (forall k :: 0 <= k < |u.criteria| && u.criteria[k] >= |root.acceptance| ==> t.acceptance[k] == "")
    && t.scope == root.scope && t.constraints == root.constraints && t.repository == root.repository && t.verification == root.verification
  }

  lemma UnitTermsIff(units: seq<Unit>, key: Key, root: Terms, t: Terms)
    requires UniqueKeys(units)
    ensures ExecutionTerms(units, key, root) == Some(t) <==> exists u :: IsUnitOf(units, key, u) && HasTermsOf(t, u, root)
  {
    if u :| IsUnitOf(units, key, u) && HasTermsOf(t, u, root) {
      TheUnit(units, key, u);
      assert t.acceptance == Lines(root.acceptance, u.criteria);
    }
    if ExecutionTerms(units, key, root) == Some(t) {
      var u := UnitOf(units, key).value;
      assert IsUnitOf(units, key, u) && HasTermsOf(t, u, root);
    }
  }

  lemma TheUnit(units: seq<Unit>, key: Key, u: Unit)
    requires UniqueKeys(units) && IsUnitOf(units, key, u)
    ensures UnitOf(units, key) == Some(u)
  {
    var i :| 0 <= i < |units| && units[i] == u;
    var found := UnitOf(units, key);
    assert found.Some?;
    var j :| 0 <= j < |units| && units[j] == found.value;
    assert i == j;
  }

  /**
   * An issue counts as an approved unit exactly when its package is authorised at the
   * revision it was created under, and it still is a child issue of the root, without an
   * outcome of its own, on the terms of that unit.
   */
  lemma BindingIff(s: Store, i: IssueId, u: Unit)
    requires i < |s.issues|
    requires forall root :: root in s.packages ==> UniqueKeys(s.packages[root].units)
    ensures BindingOf(s, i) == Bound(u) <==>
      && s.issues[i].bind.Some?
      && var b := s.issues[i].bind.value;
      && !Unauthorised(s, b.root) && s.packages[b.root].revision == b.revision
      && s.issues[i].parent == Some(b.root) && s.issues[i].isIssue && s.issues[i].outcome.None?
      && IsUnitOf(s.packages[b.root].units, b.key, u) && HasTermsOf(s.issues[i].terms, u, s.issues[b.root].terms)
  {
    if s.issues[i].bind.Some? && !Unauthorised(s, s.issues[i].bind.value.root) {
      var b := s.issues[i].bind.value;
      var units := s.packages[b.root].units;
      UnitTermsIff(units, b.key, s.issues[b.root].terms, s.issues[i].terms);
      if IsUnitOf(units, b.key, u) {
        TheUnit(units, b.key, u);
      }
    }
  }

  /** The row created for a unit. */
  lemma NewUnitIs(c: Grant, issue: Issue)
    requires UniqueKeys(c.units) && IsNewUnit(c, issue)
    ensures issue.committed && !issue.superseded && issue.state.Unstarted? && issue.parent == Some(c.root) && issue.isIssue && issue.outcome.None?
    ensures issue.bind.Some? && issue.bind.value.root == c.root && issue.bind.value.revision == c.revision
    ensures exists u :: IsUnitOf(c.units, issue.bind.value.key, u) && HasTermsOf(issue.terms, u, c.terms)
  {
    UnitTermsIff(c.units, issue.bind.value.key, c.terms, issue.terms);
  }

  /** Proof of a unit: the issue still is it, the unit asks for checks, and the current run's evidence is verified. */
  lemma ProvedIff(s: Store, i: IssueId)
    ensures Proved(s, i) <==> i < |s.issues| && i in s.evidence && exists u: Unit :: BindingOf(s, i) == Bound(u) && u.checks != []
  {
    if Proved(s, i) {
      assert BindingOf(s, i) == Bound(BindingOf(s, i).unit);
    }
  }

  // ----------------------------------------------------------- without authority

  /** No unit of a package without authority is bound, proved or ready. */
  lemma UnauthorisedDoesNothing(s: Store, i: IssueId)
    requires i < |s.issues| && s.issues[i].bind.Some? && Unauthorised(s, s.issues[i].bind.value.root)
    ensures !BindingOf(s, i).Bound? && !Proved(s, i) && !Ready(s, i)
  {
  }

  lemma UnauthorisedStep(c: Grant, s: Store, p: Progress, e: Event)
    requires Unauthorised(s, c.root)
    ensures Step(c, s, p, e).claimed == p.claimed
  {
    if e.ClaimUnit? && IsUnitRow(c, s, e.unit) {
      UnauthorisedDoesNothing(WithEvidence(s, p.evidence), e.unit);
    }
  }

  /**
   * However far a package was run before, once it has lost its authority no unit of it
   * is claimed for the first time, whatever is attempted.
   */
  lemma {:induction false} NoClaimWithoutAuthority(c: Grant, s: Store, trace: seq<Event>, p: Progress)
    requires Unauthorised(s, c.root)
    ensures After(c, s, p, trace).claimed == p.claimed
    decreases |trace|
  {
    if trace != [] {
      NoClaimWithoutAuthority(c, s, trace[..|trace| - 1], p);
      UnauthorisedStep(c, s, After(c, s, p, trace[..|trace| - 1]), trace[|trace| - 1]);
    }
  }

  // ------------------------------------------------------------ ordinary blockers

  /** The link is not between two units of one package at one revision. */
  ghost predicate Ordinary(s: Store, l: Link)
    requires l.blocker < |s.issues| && l.blocked < |s.issues|
  {
    var a, b := s.issues[l.blocker].bind, s.issues[l.blocked].bind;
    a.None? || b.None? || a.value.root != b.value.root || a.value.revision != b.value.revision
  }

  /** An ordinary blocker blocks exactly while it is committed, not superseded, and not closed. */
  lemma OrdinaryBlocksIff(s: Store, l: Link)
    requires l.blocker < |s.issues| && l.blocked < |s.issues| && Ordinary(s, l)
    ensures LinkBlocks(s, l) <==>
      && s.issues[l.blocker].committed && !s.issues[l.blocker].superseded
      && !(s.issues[l.blocker].state.Completed? || s.issues[l.blocker].state.Canceled?)
  {
  }

  /** Whatever a ready issue is, no ordinary blocker of it is still open. */
  lemma ReadyNeedsClosedBlockers(s: Store, i: IssueId, l: Link)
    requires i < |s.issues| && Ready(s, i) && l in s.links && l.blocked == i && l.blocker < |s.issues| && Ordinary(s, l)
    requires s.issues[l.blocker].committed && !s.issues[l.blocker].superseded
    ensures s.issues[l.blocker].state.Completed? || s.issues[l.blocker].state.Canceled?
  {
    OrdinaryBlocksIff(s, l);
  }

  /** An issue of no package is ready exactly when all its committed, unsuperseded blockers are closed. */
  lemma OrdinaryReadyIff(s: Store, i: IssueId)
    requires i < |s.issues| && s.issues[i].bind.None?
    ensures Ready(s, i) <==> forall l :: l in s.links && l.blocked == i && l.blocker < |s.issues| ==>
      && (s.issues[l.blocker].committed && !s.issues[l.blocker].superseded ==>
            s.issues[l.blocker].state.Completed? || s.issues[l.blocker].state.Canceled?)
  {
    forall l | l in s.links && l.blocked == i && l.blocker < |s.issues|
      ensures LinkBlocks(s, l) <==>
        && s.issues[l.blocker].committed && !s.issues[l.blocker].superseded
        && !(s.issues[l.blocker].state.Completed? || s.issues[l.blocker].state.Canceled?)
    {
      OrdinaryBlocksIff(s, l);
    }
  }

  /** Between two units of one live package a dependency blocks exactly until it is proved. */
  lemma DependencyBlocksIff(c: Grant, s: Store, l: Link)
    requires Live(c, s) && l in s.links && IsUnitRow(c, s, l.blocker) && IsUnitRow(c, s, l.blocked)
    ensures LinkBlocks(s, l) <==> s.issues[l.blocker].committed && !s.issues[l.blocker].superseded && !Proved(s, l.blocker)
  {
    assert IsEdgeLink(c, s.issues, l);
    UnitFacts(c, s, l.blocked);
  }
}
