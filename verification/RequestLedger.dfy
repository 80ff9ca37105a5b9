/**
 * The ledger as the service runs it: rows updated in place by conditional
 * writes. Every method is proved to take exactly the step of the model and to
 * keep the invariant.
 */
module RequestLedger {
  import opened Wrappers
  import opened Text
  import opened RequestStates
  import opened RequestModel
  import opened RequestInvariants
  import opened RequestTheorems

  datatype Skip = Skip(actor: ActorId, reason: SkipReason)

  /** The candidates passed over before the first eligible one, with why. */
  function SkippedBefore(q: Search, cs: seq<Candidate>): seq<Skip> {
    if cs == [] || Judge(q, cs[0].actor).Eligible? then []
    else (match Judge(q, cs[0].actor)
          case Skipped(reason) => [Skip(cs[0].actor, reason)]
          case _ => [])
         + SkippedBefore(q, cs[1..])
  }

  lemma {:induction false} SearchInOrder(q: Search, a: seq<Candidate>, b: seq<Candidate>)
    requires FirstEligible(q, a).None?
    ensures FirstEligible(q, a + b) == FirstEligible(q, b)
    ensures SkippedBefore(q, a + b) == SkippedBefore(q, a) + SkippedBefore(q, b)
    decreases |a|
  {
    if a == [] {
      assert a + b == b;
    } else {
      assert (a + b)[1..] == a[1..] + b;
      SearchInOrder(q, a[1..], b);
    }
  }

  lemma {:induction false} SearchStops(q: Search, a: seq<Candidate>, b: seq<Candidate>)
    requires FirstEligible(q, a).Some?
    ensures FirstEligible(q, a + b) == FirstEligible(q, a)
    ensures SkippedBefore(q, a + b) == SkippedBefore(q, a)
    decreases |a|
  {
    assert (a + b)[1..] == a[1..] + b;
    if !Judge(q, a[0].actor).Eligible? {
      SearchStops(q, a[1..], b);
    }
  }

  method Consider(q: Search, c: Candidate, skipped: seq<Skip>) returns (pick: Option<Candidate>, skipped': seq<Skip>)
    ensures pick == FirstEligible(q, [c]) && skipped' == skipped + SkippedBefore(q, [c])
  {
    skipped' := skipped;
    match Judge(q, c.actor)
    case Eligible => pick := Some(c);
    case NoSuchActor => pick := None;
    case Skipped(reason) =>
      pick := None;
      skipped' := skipped + [Skip(c.actor, reason)];
  }

  /** Who receives the handed-off request: the first eligible candidate, and why each earlier one was not. */
  method PickSuccessor(q: Search, target: ActorId) returns (pick: Option<Candidate>, skipped: seq<Skip>)
    ensures pick == FirstEligible(q, Candidates(q, target))
    ensures skipped == SkippedBefore(q, Candidates(q, target))
  {
    var candidates := Candidates(q, target);
    skipped := [];
    for k := 0 to |candidates|
      invariant FirstEligible(q, candidates[..k]).None? && skipped == SkippedBefore(q, candidates[..k])
    {
      pick, skipped := Consider(q, candidates[k], skipped);
      SearchInOrder(q, candidates[..k], [candidates[k]]);
      assert candidates[..k] + [candidates[k]] == candidates[..k + 1];
      if pick.Some? {
        SearchStops(q, candidates[..k + 1], candidates[k + 1..]);
        assert candidates == candidates[..k + 1] + candidates[k + 1..];
        return;
      }
    }
    assert candidates[..|candidates|] == candidates;
    pick := None;
  }

  /** Settle every open needinfo of the author on the work; the earliest takes the comment. */
  method SettleNeedInfos(open: seq<Row>, author: ActorId, work: WorkId, c: CommentId) returns (rows: seq<Row>)
    ensures |rows| == |open| && forall i :: 0 <= i < |open| ==> rows[i] == SettledByComment(open, author, work, c, i)
  {
    rows := open;
    for i := 0 to |open|
      invariant |rows| == |open|
      invariant forall j :: 0 <= j < i ==> rows[j] == SettledByComment(open, author, work, c, j)
      invariant forall j :: i <= j < |open| ==> rows[j] == open[j]
    {
      if OpenNeedInfo(open[i], author, work) {
        var answer := if EarliestOpen(open, author, work, i) then Some(c) else None;
        rows := rows[i := open[i].(claimedBy := None, tokenHash := None, leaseUntil := None, state := Completed, answer := answer)];
      }
    }
  }

  ghost function OverdueAmong(rows: seq<Row>, batch: seq<RequestId>, now: Time): set<RequestId> {
    set i | i in batch && i < |rows| && OverdueRow(rows[i], now)
  }

  lemma OverdueNext(rows: seq<Row>, batch: seq<RequestId>, k: nat, now: Time)
    requires k < |batch| && batch[k] < |rows| && forall j :: 0 <= j < k ==> batch[j] != batch[k]
    ensures batch[k] !in OverdueAmong(rows, batch[..k], now)
    ensures OverdueAmong(rows, batch[..k + 1], now)
      == OverdueAmong(rows, batch[..k], now) + (if OverdueRow(rows[batch[k]], now) then {batch[k]} else {})
  {
    assert batch[..k + 1] == batch[..k] + [batch[k]];
  }

  /** The requests named have failed, no other row moved, and what was opened is not overdue. */
  ghost predicate Swept(start: seq<Row>, rows: seq<Row>, failed: set<RequestId>, now: Time) {
    && |start| <= |rows|
    && (forall i :: 0 <= i < |start| ==> if i in failed then rows[i].state.Failed? else rows[i] == start[i])
    && (forall i :: |start| <= i < |rows| ==> !OverdueRow(rows[i], now))
  }

  class RequestLedger {
    const actors: map<ActorId, ActorKind>
    var rows: seq<Row>
    var comments: seq<Comment>
    var minted: seq<Mint>
    var inFlight: map<SessionId, Read>

    ghost function Model(): Ledger
      reads this
    {
      Ledger(actors, rows, comments, minted, inFlight)
    }

    ghost predicate Valid()
      reads this
    {
      Inv(Model())
    }

    constructor (actors: map<ActorId, ActorKind>)
      ensures Valid() && Model() == Init(actors)
    {
      this.actors := actors;
      rows, comments, minted, inFlight := [], [], [], map[];
      new;
      InitOk(actors);
    }

    method CreateRequest(key: Option<string>, target: ActorId, requester: ActorId, work: WorkId, thread: CommentId,
                         deadline: Option<Time>, now: Time)
      returns (outcome: Outcome)
      requires Valid()
      modifies this
      ensures Valid()
      ensures Step(Model(), outcome) == Apply(old(Model()), Create(key, target, requester, work, thread, deadline, now))
    {
      StepKeeps(Model(), Create(key, target, requester, work, thread, deadline, now));
      var deadlineAt := if deadline.Some? then deadline.value else now + DEFAULT_REQUEST_DEADLINE_MS;
      if key.Some? && exists i :: 0 <= i < |rows| && rows[i].key == Some(CallerKey(key.value)) {
        return Replayed(KeyHolder(rows, Some(CallerKey(key.value))));
      }
      if target !in actors || requester !in actors || thread >= |comments| {
        return Refused(BadReference);
      }
      outcome := Opened(|rows|);
      rows := rows + [NewRow(target, requester, work, thread, CallerKeyOf(key), deadlineAt, false, now)];
    }

    method ClaimRequest(id: RequestId, actor: ActorId, presented: Option<Token>, leaseMs: Option<int>, now: Time)
      returns (outcome: Outcome)
      requires Valid()
      modifies this
      ensures Valid()
      ensures Step(Model(), outcome) == Apply(old(Model()), Claim(id, actor, presented, leaseMs, now))
    {
      StepKeeps(Model(), Claim(id, actor, presented, leaseMs, now));
      var expiresAt := now + (if leaseMs.Some? then leaseMs.value else REQUEST_CLAIM_LEASE_MS);
      if presented.Some? && id < |rows| && CanRenew(rows[id], actor, presented.value, now) {
        rows := rows[id := rows[id].(leaseUntil := Some(expiresAt))];
        return Renewed(id, presented.value);
      }
      if id < |rows| && CanTake(rows[id], actor, now) {
        var token := |minted|;
        var generation := rows[id].generation + 1;
        minted := minted + [Mint(id, generation)];
        rows := rows[id := rows[id].(
          leaseUntil := Some(expiresAt),
          generation := generation,
          tokenHash := Some(Sha256(token)),
          claimedBy := Some(actor),
          state := Working)];
        return Taken(id, token, generation);
      }
      if id >= |rows| {
        return Refused(NotFound);
      }
      outcome := Refused(if presented.Some? && rows[id].claimedBy == Some(actor) then Superseded else NotClaimable);
    }

    /** First half of an answer: who holds the claim at the moment of the read. */
    method BeginAnswer(session: SessionId, id: RequestId, actor: ActorId, token: Token, body: string, now: Time)
      returns (outcome: Outcome)
      requires Valid()
      modifies this`inFlight
      ensures Valid()
      ensures Step(Model(), outcome) == Apply(old(Model()), ReadForAnswer(session, id, actor, token, body, now))
    {
      StepKeeps(Model(), ReadForAnswer(session, id, actor, token, body, now));
      if Blank(body) {
        return Refused(BodyRequired);
      }
      if id >= |rows| {
        return Refused(NotFound);
      }
      var r := rows[id];
      if IsTerminal(r.state) {
        return Refused(AlreadyTerminal);
      }
      if r.claimedBy == Some(actor) && r.tokenHash != Some(Sha256(token)) {
        return Refused(Superseded);
      }
      if r.claimedBy != Some(actor) || r.leaseUntil.None? || r.leaseUntil.value <= now {
        return Refused(NotHeld);
      }
      inFlight := inFlight[session := Read(id, actor, token, r.work, r.thread)];
      outcome := ReadOk;
    }

    /** Second half: comment and move, only if the claim is still this execution's. */
    method FinishAnswer(session: SessionId, v: Verdict) returns (outcome: Outcome)
      requires Valid()
      modifies this
      ensures Valid()
      ensures Step(Model(), outcome) == Apply(old(Model()), CommitAnswer(session, v))
    {
      StepKeeps(Model(), CommitAnswer(session, v));
      if session !in inFlight {
        return Refused(NotFound);
      }
      var read := inFlight[session];
      inFlight := inFlight - {session};
      if read.id >= |rows| || !StillHolds(rows[read.id], read) {
        return Refused(NotHeld);
      }
      var c := |comments|;
      comments := comments + [Comment(read.work, Some(read.thread), read.actor)];
      var r := rows[read.id];
      if v.AskBack? {
        r := r.(claimedBy := None, tokenHash := None, leaseUntil := None);
      }
      rows := rows[read.id := r.(answer := Some(c), state := VerdictState(v))];
      outcome := Answered(read.id, Some(read.token), c);
    }

    method AnswerAsHuman(id: RequestId, who: Caller, body: string, reason: string, v: Verdict) returns (outcome: Outcome)
      requires Valid()
      modifies this
      ensures Valid()
      ensures Step(Model(), outcome) == Apply(old(Model()), HumanAnswer(id, who, body, reason, v))
    {
      StepKeeps(Model(), HumanAnswer(id, who, body, reason, v));
      if Blank(body) {
        return Refused(BodyRequired);
      }
      if !who.kind.Human? {
        return Refused(NotTarget);
      }
      if id >= |rows| {
        return Refused(NotFound);
      }
      var r := rows[id];
      if IsTerminal(r.state) {
        return Refused(AlreadyTerminal);
      }
      if r.state.InputRequired? {
        return Refused(AwaitingReply);
      }
      if r.target != who.id {
        if !who.admin {
          return Refused(NotTarget);
        }
        if Blank(reason) {
          return Refused(ReasonRequired);
        }
      }
      var c := |comments|;
      comments := comments + [Comment(r.work, Some(r.thread), who.id)];
      rows := rows[id := r.(answer := Some(c), claimedBy := None, tokenHash := None, leaseUntil := None, state := VerdictState(v))];
      outcome := Answered(id, None, c);
    }

    method CancelRequest(id: RequestId) returns (outcome: Outcome)
      requires Valid()
      modifies this`rows
      ensures Valid()
      ensures Step(Model(), outcome) == Apply(old(Model()), Cancel(id))
    {
      StepKeeps(Model(), Cancel(id));
      if id < |rows| && IsClaimable(rows[id].state) {
        rows := rows[id := rows[id].(state := Canceled)];
        return Moved(id);
      }
      outcome := Refused(if id >= |rows| then NotFound else AlreadyTerminal);
    }

    method ReplyToRequest(id: RequestId, who: Caller, body: string, reason: string) returns (outcome: Outcome)
      requires Valid()
      modifies this
      ensures Valid()
      ensures Step(Model(), outcome) == Apply(old(Model()), Reply(id, who, body, reason))
    {
      StepKeeps(Model(), Reply(id, who, body, reason));
      if Blank(body) {
        return Refused(BodyRequired);
      }
      if !who.kind.Human? {
        return Refused(NotRequester);
      }
      if id >= |rows| {
        return Refused(NotFound);
      }
      if !rows[id].state.InputRequired? {
        return Refused(NotInputRequired);
      }
      if rows[id].requester != who.id {
        if !who.admin {
          return Refused(NotRequester);
        }
        if Blank(reason) {
          return Refused(ReasonRequired);
        }
      }
      comments := comments + [Comment(rows[id].work, Some(rows[id].thread), who.id)];
      rows := rows[id := rows[id].(state := Submitted, answer := None)];
      outcome := Moved(id);
    }

    /** Fail one overdue request and hand it on, in one transaction. */
    method ExpireOne(id: RequestId, sweeper: ActorId, dir: Directory, now: Time) returns (outcome: Outcome)
      requires Valid()
      modifies this
      ensures Valid()
      ensures Step(Model(), outcome) == Apply(old(Model()), Expire(id, sweeper, dir, now))
    {
      StepKeeps(Model(), Expire(id, sweeper, dir, now));
      if id >= |rows| || rows[id].deadline > now || !IsClaimable(rows[id].state) {
        return Refused(NotOverdue);
      }
      var r := rows[id];
      HandOffKeyFree(Model(), id);
      var forceHuman := r.hops + 1 >= MAX_HANDOFF_HOPS || now >= ChainDeadline(r);
      var q := Search(actors, dir, Visited(rows, RootOf(rows, id)) + {r.target}, forceHuman, now);
      comments := comments + [Comment(r.work, Some(r.thread), sweeper)];
      if r.needInfo {
        rows := rows[id := r.(state := Failed)];
        return Expired(id, None);
      }
      var root := RootOf(rows, id);
      var pick, skipped := PickSuccessor(q, r.target);
      rows := rows[id := r.(state := Failed, root := Some(root))];
      if pick.None? || pick.value.actor !in actors {
        return Expired(id, None);
      }
      outcome := Expired(id, Some(|rows|));
      rows := rows + [HandedOffRow(r, id, root, pick.value.actor, actors[pick.value.actor], now)];
    }

    /** One listed request: failed if still overdue, else left alone; whatever it opens is live. */
    method ExpireListed(id: RequestId, sweeper: ActorId, dir: Directory, now: Time) returns (gone: bool)
      requires Valid()
      modifies this
      ensures Valid() && |old(rows)| <= |rows| <= |old(rows)| + 1
      ensures gone <==> id < |old(rows)| && OverdueRow(old(rows)[id], now)
      ensures gone ==> rows[id].state.Failed?
      ensures !gone ==> rows == old(rows)
      ensures forall i :: 0 <= i < |old(rows)| && i != id ==> rows[i] == old(rows)[i]
      ensures |rows| == |old(rows)| + 1 ==> !OverdueRow(rows[|old(rows)|], now)
    {
      ghost var before := Model();
      var outcome := ExpireOne(id, sweeper, dir, now);
      gone := outcome.Expired?;
      ExpireFrame(before, id, sweeper, dir, now);
      HandOffIsLive(before, id, sweeper, dir, now);
    }

    /** One request more of a sweep. */
    method ExpireNext(id: RequestId, sweeper: ActorId, dir: Directory, now: Time, ghost start: seq<Row>, ghost failed: set<RequestId>)
        returns (gone: bool)
      requires Valid() && Swept(start, rows, failed, now) && id < |start| && id !in failed
      modifies this
      ensures Valid() && |old(rows)| <= |rows| <= |old(rows)| + (if gone then 1 else 0)
      ensures gone <==> OverdueRow(start[id], now)
      ensures Swept(start, rows, if gone then failed + {id} else failed, now)
    {
      gone := ExpireListed(id, sweeper, dir, now);
    }

    /**
     * One sweep over the requests listed: those still overdue are failed and counted,
     * no other row moves, and nothing it opens is overdue at the same instant.
     */
    method ExpireOverdue(batch: seq<RequestId>, sweeper: ActorId, dir: Directory, now: Time) returns (expired: nat)
      requires Valid()
      requires forall k :: 0 <= k < |batch| ==> batch[k] < |rows|
      requires forall j, k :: 0 <= j < k < |batch| ==> batch[j] != batch[k]
      modifies this
      ensures Valid() && |rows| <= |old(rows)| + expired
      ensures expired == |OverdueAmong(old(rows), batch, now)|
      ensures Swept(old(rows), rows, OverdueAmong(old(rows), batch, now), now)
    {
      expired := 0;
      ghost var start := rows;
      ghost var failed: set<RequestId> := {};
      for k := 0 to |batch|
        invariant Valid()
        invariant expired == |failed| && |rows| <= |start| + expired
        invariant failed == OverdueAmong(start, batch[..k], now)
        invariant Swept(start, rows, failed, now)
      {
        OverdueNext(start, batch, k, now);
        var gone := ExpireNext(batch[k], sweeper, dir, now, start, failed);
        if gone {
          failed := failed + {batch[k]};
          expired := expired + 1;
        }
      }
      assert batch[..|batch|] == batch;
    }

    method CheckDelegation(d: Delegation) returns (refusal: Option<Outcome>)
      ensures refusal == RefusedAtOnce(Model(), d)
    {
      if !d.fromKind.Agent? {
        return Some(Refused(AgentsOnly));
      }
      if d.asked < 1 || d.asked > MAX_DELEGATED_BUDGET {
        return Some(Refused(BadBudget));
      }
      if Blank(d.body) {
        return Some(Refused(BodyRequired));
      }
      if d.key.Some? && exists i :: 0 <= i < |rows| && rows[i].key == Some(CallerKey(d.key.value)) {
        return Some(Replayed(KeyHolder(rows, CallerKeyOf(d.key))));
      }
      if !d.committed {
        return Some(Refused(NotCommitted));
      }
      if d.from !in actors || !IsParent(Ledger(actors, rows, comments, minted, inFlight), d.from, d.work, d.parent) {
        return Some(Refused(BadReference));
      }
      if d.target !in actors || !actors[d.target].Agent? || d.target == d.from || !d.credentialed {
        return Some(Refused(BadTarget));
      }
      refusal := None;
    }

    /** What the chain and the policy say, with the hop count, deadline and balance the delegation would have. */
    method CheckChain(d: Delegation, now: Time) returns (refusal: Option<Outcome>, root: RequestId, hops: nat, chainDeadline: Time, remaining: int)
      requires d.parent.Some? ==> d.parent.value < |rows|
      ensures refusal == RefusedByChain(Model(), d)
      ensures root == (if d.parent.Some? then RootOf(rows, d.parent.value) else |rows|)
      ensures hops == DelegationHops(Model(), d.parent) && remaining == Remaining(Model(), d)
      ensures chainDeadline == DelegationDeadline(Model(), d.parent, now)
    {
      root, hops, remaining, chainDeadline, refusal := |rows|, 0, d.asked, now + CHAIN_TOTAL_MS, None;
      if d.parent.Some? {
        var parent := rows[d.parent.value];
        root := if parent.root.Some? then parent.root.value else d.parent.value;
        hops := parent.hops + 1;
        if parent.chainDeadline.Some? {
          chainDeadline := parent.chainDeadline.value;
        }
        if parent.budget.Some? {
          remaining := parent.budget.value;
        }
      }
      if d.parent.None? && !d.policyCommit {
        refusal := Some(Refused(NoRoot));
      } else if hops >= MAX_HANDOFF_HOPS {
        refusal := Some(Refused(TooManyHops));
      } else if d.parent.Some? && InDelegationChain(Ledger(actors, rows, comments, minted, inFlight), root, d.target) {
        refusal := Some(Refused(ChainCycle));
      } else if !d.policyAllows {
        refusal := Some(Refused(if remaining <= 0 && d.gateAuto then BudgetExhausted else PolicyRefused));
      } else if Min(d.asked, remaining) <= 0 {
        refusal := Some(Refused(BudgetExhausted));
      }
    }

    /** Debit the parent, comment on the work and open the delegated request. */
    method GrantDelegation(d: Delegation, spend: int, row: Row)
      requires d.parent.Some? ==> d.parent.value < |rows|
      modifies this`rows, this`comments
      ensures rows == Debited(old(Model()), d, spend) + [row]
      ensures comments == old(comments) + [Comment(d.work, None, d.from)]
    {
      if d.parent.Some? && rows[d.parent.value].budget.Some? {
        rows := rows[d.parent.value := rows[d.parent.value].(budget := Some(rows[d.parent.value].budget.value - spend))];
      }
      comments := comments + [Comment(d.work, None, d.from)];
      rows := rows + [row];
    }

    /** Explicit agent-to-agent delegation; the share comes out of the parent's balance. */
    method DelegateRequest(d: Delegation, now: Time) returns (outcome: Outcome)
      requires Valid()
      modifies this
      ensures Valid()
      ensures Step(Model(), outcome) == Apply(old(Model()), Delegate(d, now))
    {
      StepKeeps(Model(), Delegate(d, now));
      var refusal := CheckDelegation(d);
      if refusal.Some? {
        return refusal.value;
      }
      var root, hops, chainDeadline, remaining;
      refusal, root, hops, chainDeadline, remaining := CheckChain(d, now);
      if refusal.Some? {
        return refusal.value;
      }
      var spend := Min(d.asked, remaining);
      var row := NewRow(d.target, d.from, d.work, |comments|, CallerKeyOf(d.key),
                        Min(now + DEFAULT_REQUEST_DEADLINE_MS, chainDeadline), false, now)
                   .(root := Some(root), hops := hops, chainDeadline := Some(chainDeadline), budget := Some(spend));
      assert row == DelegatedRow(Model(), d, spend, now);
      outcome := Delegated(|rows|, spend);
      GrantDelegation(d, spend, row);
    }

    /** Intake dispatch, first statement: open the work's request, or find the one it has. */
    method OpenDispatch(gate: ActorId, target: ActorId, work: WorkId, now: Time) returns (outcome: Outcome)
      requires Valid()
      modifies this
      ensures Valid()
      ensures Step(Model(), outcome) == Apply(old(Model()), DispatchCreate(gate, target, work, now))
    {
      StepKeeps(Model(), DispatchCreate(gate, target, work, now));
      if target !in actors || !actors[target].Agent? || gate !in actors {
        return Refused(BadTarget);
      }
      comments := comments + [Comment(work, None, gate)];
      var key := Some(IntakeKey(work));
      if exists i :: 0 <= i < |rows| && rows[i].key == key {
        return Replayed(KeyHolder(rows, key));
      }
      outcome := Opened(|rows|);
      rows := rows + [NewRow(target, gate, work, |comments| - 1, key, now + DEFAULT_REQUEST_DEADLINE_MS, false, now)];
    }

    /** Intake dispatch, second statement: make it the root of a budgeted chain. */
    method LinkDispatch(work: WorkId, now: Time) returns (outcome: Outcome)
      requires Valid()
      modifies this`rows
      ensures Valid()
      ensures Step(Model(), outcome) == Apply(old(Model()), DispatchLink(work, now))
    {
      StepKeeps(Model(), DispatchLink(work, now));
      var key := Some(IntakeKey(work));
      if !exists i :: 0 <= i < |rows| && rows[i].key == key {
        return Refused(NotFound);
      }
      var id := KeyHolder(rows, key);
      rows := rows[id := rows[id].(root := Some(id), hops := 0, chainDeadline := Some(now + CHAIN_TOTAL_MS),
                                   budget := Some(DEFAULT_DISPATCH_BUDGET))];
      outcome := Moved(id);
    }

    /** Any comment a person writes on the work settles their open needinfos there. */
    method WriteComment(author: ActorId, work: WorkId, parent: Option<CommentId>) returns (outcome: Outcome)
      requires Valid()
      modifies this
      ensures Valid()
      ensures Step(Model(), outcome) == Apply(old(Model()), CommentOnWork(author, work, parent))
    {
      StepKeeps(Model(), CommentOnWork(author, work, parent));
      if author !in actors {
        return Refused(BadReference);
      }
      var c := |comments|;
      comments := comments + [Comment(work, parent, author)];
      rows := SettleNeedInfos(rows, author, work, c);
      assert rows == Apply(old(Model()), CommentOnWork(author, work, parent)).state.rows;
      outcome := Commented(c);
    }
  }

  lemma ExpireFrame(s: Ledger, id: RequestId, sweeper: ActorId, dir: Directory, now: Time)
    requires Inv(s)
    ensures var step := Apply(s, Expire(id, sweeper, dir, now));
      && (step.outcome.Expired? <==> Overdue(s, id, now)) && |s.rows| <= |step.state.rows| <= |s.rows| + 1
      && (|step.state.rows| == |s.rows| + 1 ==> step.outcome.Expired? && step.outcome.next.Some?)
      && (step.outcome.Expired? ==> step.state.rows[id].state.Failed?)
      && (!step.outcome.Expired? ==> step.state.rows == s.rows)
      && forall i :: 0 <= i < |s.rows| && i != id ==> step.state.rows[i] == s.rows[i]
  {
    if Overdue(s, id, now) {
      HandOffKeyFree(s, id);
    }
  }
}
