/**
 * Delegations and hand-offs that overlap. Their transactions run under no lock: what
 * they check, and the balance they subtract from, is what they read; what they write
 * lands on the ledger as others have left it by then.
 */
module RequestRaces {
  import opened Wrappers
  import opened RequestStates
  import opened RequestModel
  import opened RequestInvariants
  import opened RequestTheorems

  /** The ledger read has become the ledger written on, by any steps of others. */
  ghost predicate ReadEarlier(s0: Ledger, s1: Ledger) { Inv(s0) && Inv(s1) && Evolves(s0, s1) }

  ghost predicate Granted(s0: Ledger, d: Delegation, now: Time) { DoDelegate(s0, d, now).outcome.Delegated? }

  ghost function Share(s0: Ledger, d: Delegation): int
    requires d.parent.Some? ==> d.parent.value < |s0.rows|
  {
    Min(d.asked, Remaining(s0, d))
  }

  /** A delegation granted on s0 that writes to s1: the parent gets the balance read less the share, whatever it holds by now. */
  ghost function LateDelegation(s0: Ledger, s1: Ledger, d: Delegation, now: Time): Ledger
    requires d.parent.Some? ==> d.parent.value < |s0.rows| <= |s1.rows|
  {
    var row := DelegatedRow(s0, d, Share(s0, d), now)
                 .(thread := |s1.comments|, root := Some(if d.parent.Some? then RootOf(s0.rows, d.parent.value) else |s1.rows|));
    s1.(rows := LateDebit(s0, s1, d) + [row], comments := s1.comments + [Comment(d.work, None, d.from)])
  }

  ghost function LateDebit(s0: Ledger, s1: Ledger, d: Delegation): seq<Row>
    requires d.parent.Some? ==> d.parent.value < |s0.rows| <= |s1.rows|
  {
    if d.parent.Some? && s0.rows[d.parent.value].budget.Some? then
      s1.rows[d.parent.value := s1.rows[d.parent.value].(budget := Some(s0.rows[d.parent.value].budget.value - Share(s0, d)))]
    else s1.rows
  }

  /** With nothing in between, this is the delegation of the ledger's own steps. */
  lemma UndisturbedDelegation(s: Ledger, d: Delegation, now: Time)
    requires Granted(s, d, now)
    ensures d.parent.Some? ==> d.parent.value < |s.rows|
    ensures LateDelegation(s, s, d, now) == DoDelegate(s, d, now).state
  {
    DelegationGranted(s, d, now);
  }

  /** The delegation's parent carried a balance when it was read. */
  ghost predicate FromBudget(s0: Ledger, d: Delegation) {
    d.parent.Some? && d.parent.value < |s0.rows| && s0.rows[d.parent.value].budget.Some?
  }

  /** No balance goes negative, whatever was overwritten. */
  lemma LateBalances(s0: Ledger, s1: Ledger, d: Delegation, now: Time)
    requires ReadEarlier(s0, s1) && Granted(s0, d, now) && FromBudget(s0, d)
    ensures var s' := LateDelegation(s0, s1, d, now);
      && |s'.rows| == |s1.rows| + 1
      && s'.rows[|s1.rows|].budget == Some(Share(s0, d)) && Share(s0, d) >= 1
      && s'.rows[d.parent.value].budget.Some? && s'.rows[d.parent.value].budget.value >= 0
  {
    DelegationGranted(s0, d, now);
  }

  /** The chain's total moves by what the parent's balance changed between the read and the write. */
  lemma LateTotal(s0: Ledger, s1: Ledger, d: Delegation, now: Time, root: RequestId)
    requires ReadEarlier(s0, s1) && Granted(s0, d, now) && FromBudget(s0, d) && root == RootOf(s0.rows, d.parent.value)
    ensures TotalBudget(LateDelegation(s0, s1, d, now), root)
      == TotalBudget(s1, root) + Balance(s0.rows[d.parent.value]) - Balance(s1.rows[d.parent.value])
  {
    DelegationGranted(s0, d, now);
    var p, n := d.parent.value, |s1.rows|;
    var s' := LateDelegation(s0, s1, d, now);
    RootIsRoot(s0.rows, p);
    assert RootOf(s1.rows, p) == root;
    forall i | 0 <= i < n
      ensures RootOf(s'.rows, i) == RootOf(s1.rows, i)
    {
    }
    ChainBudgetShift(s1.rows, s'.rows, root, n, p);
  }

  /** So overlapping steps keep the chain's total exactly when the parent holds the balance that was read. */
  lemma LateConservesIff(s0: Ledger, s1: Ledger, d: Delegation, now: Time, root: RequestId)
    requires ReadEarlier(s0, s1) && Granted(s0, d, now) && FromBudget(s0, d) && root == RootOf(s0.rows, d.parent.value)
    ensures TotalBudget(LateDelegation(s0, s1, d, now), root) == TotalBudget(s1, root)
      <==> Balance(s1.rows[d.parent.value]) == Balance(s0.rows[d.parent.value])
  {
    LateTotal(s0, s1, d, now, root);
  }

  /** Two delegations that read the same parent at once: the chain's total grows by the first one's share, always. */
  lemma TwoDelegationsAtOnce(s: Ledger, d: Delegation, e: Delegation, now: Time, root: RequestId)
    requires Inv(s) && Granted(s, d, now) && Granted(s, e, now) && d.parent == e.parent && FromBudget(s, d)
    requires root == RootOf(s.rows, d.parent.value)
    ensures var s1 := DoDelegate(s, d, now).state;
      |s.rows| <= |s1.rows| && Share(s, d) >= 1
      && TotalBudget(LateDelegation(s, s1, e, now), root) == TotalBudget(s, root) + Share(s, d)
  {
    DelegationGranted(s, d, now);
    DelegateKeeps(s, d, now);
    DelegationMovesBudget(s, d, now, root);
    LateTotal(s, DoDelegate(s, d, now).state, e, now, root);
  }

  // ----------------------------------------------------------- one target per chain

  /** A chain has room for an actor: nobody in it was asked this actor. */
  ghost predicate NotYetAsked(rows: seq<Row>, root: RequestId, a: ActorId) {
    forall i :: 0 <= i < |rows| && RootOf(rows, i) == root ==> rows[i].target != a
  }

  lemma AppendDistinctIff(rows: seq<Row>, r: Row, root: RequestId)
    requires TargetsDistinct(rows) && r.root == Some(root)
    ensures TargetsDistinct(rows + [r]) <==> NotYetAsked(rows, root, r.target)
  {
    var rows' := rows + [r];
    forall i | 0 <= i < |rows|
      ensures RootOf(rows', i) == RootOf(rows, i) && rows'[i] == rows[i]
    {
    }
    assert rows'[|rows|] == r && RootOf(rows', |rows|) == root;
    if TargetsDistinct(rows') {
      forall i | 0 <= i < |rows| && RootOf(rows, i) == root
        ensures rows[i].target != r.target
      {
        assert RootOf(rows', i) == RootOf(rows', |rows|);
      }
    }
  }

  lemma DebitKeepsTargets(s0: Ledger, s1: Ledger, d: Delegation)
    requires d.parent.Some? ==> d.parent.value < |s0.rows| <= |s1.rows|
    ensures |LateDebit(s0, s1, d)| == |s1.rows|
    ensures forall i :: 0 <= i < |s1.rows| ==>
      LateDebit(s0, s1, d)[i].target == s1.rows[i].target && RootOf(LateDebit(s0, s1, d), i) == RootOf(s1.rows, i)
  {
  }

  /** A late delegation keeps the targets of every chain distinct exactly when its target was not asked in the meantime. */
  lemma LateDelegationDistinctIff(s0: Ledger, s1: Ledger, d: Delegation, now: Time)
    requires ReadEarlier(s0, s1) && Granted(s0, d, now)
    ensures d.parent.Some? ==> d.parent.value < |s0.rows|
    ensures TargetsDistinct(LateDelegation(s0, s1, d, now).rows)
      <==> NotYetAsked(s1.rows, if d.parent.Some? then RootOf(s0.rows, d.parent.value) else |s1.rows|, d.target)
  {
    DelegationGranted(s0, d, now);
    var root := if d.parent.Some? then RootOf(s0.rows, d.parent.value) else |s1.rows|;
    DebitKeepsTargets(s0, s1, d);
    var debited := LateDebit(s0, s1, d);
    assert TargetsDistinct(debited);
    AppendDistinctIff(debited, LateDelegation(s0, s1, d, now).rows[|s1.rows|], root);
  }

  /** A hand-off whose successor was picked on s0, written to s1. */
  ghost function LateHandOff(s0: Ledger, s1: Ledger, id: RequestId, dir: Directory, now: Time): seq<Row>
    requires id < |s0.rows| <= |s1.rows|
    requires SuccessorOf(s0, id, dir, now).Some? && SuccessorOf(s0, id, dir, now).value.actor in s0.actors
  {
    var a := SuccessorOf(s0, id, dir, now).value.actor;
    var root := RootOf(s0.rows, id);
    s1.rows[id := s1.rows[id].(state := Failed, root := Some(root))] + [HandedOffRow(s1.rows[id], id, root, a, s0.actors[a], now)]
  }

  /** A late hand-off keeps the targets of every chain distinct exactly when the successor picked was not asked in the meantime. */
  lemma LateHandOffDistinctIff(s0: Ledger, s1: Ledger, id: RequestId, dir: Directory, now: Time)
    requires ReadEarlier(s0, s1) && id < |s0.rows|
    requires SuccessorOf(s0, id, dir, now).Some?
    ensures SuccessorOf(s0, id, dir, now).value.actor in s0.actors
    ensures TargetsDistinct(LateHandOff(s0, s1, id, dir, now))
      <==> NotYetAsked(s1.rows, RootOf(s0.rows, id), SuccessorOf(s0, id, dir, now).value.actor)
  {
    SuccessorIsNew(s0, id, dir, now);
    var root := RootOf(s0.rows, id);
    var failed := s1.rows[id := s1.rows[id].(state := Failed, root := Some(root))];
    forall i | 0 <= i < |s1.rows|
      ensures failed[i].target == s1.rows[i].target && RootOf(failed, i) == RootOf(s1.rows, i)
    {
    }
    assert TargetsDistinct(failed);
    AppendDistinctIff(failed, LateHandOff(s0, s1, id, dir, now)[|s1.rows|], root);
  }

  /** Two requests of one chain swept at once, to the same successor: that actor is asked twice, always. */
  lemma TwoSweepsAtOnce(s: Ledger, id: RequestId, other: RequestId, sweeper: ActorId, dir: Directory, now: Time)
    requires Inv(s) && id != other && other < |s.rows|
    requires Apply(s, Expire(id, sweeper, dir, now)).outcome.Expired? && Apply(s, Expire(id, sweeper, dir, now)).outcome.next.Some?
    requires RootOf(s.rows, id) == RootOf(s.rows, other)
    requires SuccessorOf(s, id, dir, now) == SuccessorOf(s, other, dir, now)
    ensures SuccessorOf(s, other, dir, now).Some? && SuccessorOf(s, other, dir, now).value.actor in s.actors
    ensures var s1 := Apply(s, Expire(id, sweeper, dir, now)).state;
      |s.rows| <= |s1.rows| && !TargetsDistinct(LateHandOff(s, s1, other, dir, now))
  {
    var step := Apply(s, Expire(id, sweeper, dir, now));
    var mid := ExpiryParts(s, id, sweeper, dir, now, step);
    ExpireKeeps(s, id, sweeper, dir, now);
    LateHandOffDistinctIff(s, step.state, other, dir, now);
    var a := SuccessorOf(s, id, dir, now).value.actor;
    assert step.state.rows[|s.rows|].target == a && RootOf(step.state.rows, |s.rows|) == RootOf(s.rows, id);
  }
}
