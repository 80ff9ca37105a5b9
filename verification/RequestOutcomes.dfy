/**
 * What each operation on a request does, told in the ledger's own fields: when it goes
 * through, and what the row, the thread and everything else hold afterwards.
 */
module RequestOutcomes {
  import opened Wrappers
  import opened Text
  import opened RequestStates
  import opened RequestModel
  import opened RequestInvariants
  import opened RequestTheorems

  const HOURS := 3_600_000

  ghost predicate OthersKeep(s: Ledger, s': Ledger, id: RequestId) {
    |s'.rows| == |s.rows| && forall j :: 0 <= j < |s.rows| && j != id ==> s'.rows[j] == s.rows[j]
  }

  ghost predicate Open(r: Row) { r.state.Submitted? || r.state.Working? || r.state.InputRequired? }

  ghost predicate Unheld(r: Row) { r.claimedBy.None? && r.tokenHash.None? && r.leaseUntil.None? }

  /** The last comment is this one, and it is the only new one. */
  ghost predicate Adds(s: Ledger, s': Ledger, c: Comment) { s'.comments == s.comments + [c] }

  // -------------------------------------------------------------------- claims

  /** A claim that succeeds holds the request until the lease asked for, or a minute, from now. */
  lemma LeaseGiven(s: Ledger, id: RequestId, actor: ActorId, presented: Option<Token>, leaseMs: Option<int>, now: Time)
    ensures var step := Apply(s, Claim(id, actor, presented, leaseMs, now));
      step.outcome.Taken? || step.outcome.Renewed? ==>
        && id < |s.rows| && OthersKeep(s, step.state, id)
        && var r := step.state.rows[id];
        && r.leaseUntil == Some(now + (if leaseMs.Some? then leaseMs.value else 60_000))
        && r.tokenHash == Some(Sha256(step.outcome.token)) && r.claimedBy == Some(actor) && r.target == actor
        && (step.outcome.Taken? ==> r.state.Working?)
  {
  }

  /** And serves its holder at every instant before that end: the token renews, and a read followed by its commit answers. */
  lemma LeaseServes(s: Ledger, id: RequestId, actor: ActorId, presented: Option<Token>, leaseMs: Option<int>, now: Time,
                    t: Token, step: Step, later: Time, again: Option<int>, session: SessionId, body: string, v: Verdict)
    requires Inv(s) && step == Apply(s, Claim(id, actor, presented, leaseMs, now))
    requires (step.outcome.Taken? || step.outcome.Renewed?) && t == step.outcome.token
    requires later < now + (if leaseMs.Some? then leaseMs.value else 60_000) && !Blank(body)
    ensures Apply(step.state, Claim(id, actor, Some(t), again, later)).outcome == Renewed(id, t)
    ensures var read := Apply(step.state, ReadForAnswer(session, id, actor, t, body, later));
      read.outcome.ReadOk? && Apply(read.state, CommitAnswer(session, v)).outcome == Answered(id, Some(t), |s.comments|)
  {
    StepKeeps(s, Claim(id, actor, presented, leaseMs, now));
    LeaseGiven(s, id, actor, presented, leaseMs, now);
    assert RowOk(step.state, id);
    CurrentHolderSucceeds(step.state, id, later, again, session, body, v);
  }

  /** The read half of an answer goes through exactly for the holder of the current generation's token, under a live lease. */
  lemma AnswerReadIff(s: Ledger, session: SessionId, id: RequestId, actor: ActorId, token: Token, body: string, now: Time)
    requires Inv(s)
    ensures var step := Apply(s, ReadForAnswer(session, id, actor, token, body, now));
      && (step.outcome.ReadOk? <==>
            && !Blank(body) && id < |s.rows| && s.rows[id].state.Working? && s.rows[id].target == actor
            && token < |s.minted| && s.minted[token] == Mint(id, s.rows[id].generation)
            && s.rows[id].leaseUntil.Some? && s.rows[id].leaseUntil.value > now)
      && step.state == s.(inFlight := step.state.inFlight)
  {
    if id < |s.rows| {
      assert RowOk(s, id);
      if token < |s.minted| && s.minted[token] == Mint(id, s.rows[id].generation) {
        HeldMeansGeneration(s, id, token, s.rows[id].generation);
      }
    }
  }

  // ------------------------------------------------------------ people's answers

  /** The state an answer leaves: done, failed, or asked back and free again. */
  ghost predicate Settles(r': Row, v: Verdict) {
    && (r'.state.Completed? <==> v.AnswerCompleted?) && (r'.state.Failed? <==> v.AnswerFailed?)
    && (r'.state.InputRequired? <==> v.AskBack?)
  }

  /** A person answers an open request addressed to them, or any as an admin who gives a reason, unless it waits for its requester. */
  lemma HumanAnswerIff(s: Ledger, id: RequestId, who: Caller, body: string, reason: string, v: Verdict)
    ensures var step := Apply(s, HumanAnswer(id, who, body, reason, v));
      && (step.outcome.Answered? <==>
            && !Blank(body) && who.kind.Human? && id < |s.rows| && (s.rows[id].state.Submitted? || s.rows[id].state.Working?)
            && (s.rows[id].target == who.id || (who.admin && !Blank(reason))))
      && (step.outcome.Answered? ==>
            && var r, r' := s.rows[id], step.state.rows[id];
            && OthersKeep(s, step.state, id) && Adds(s, step.state, Comment(r.work, Some(r.thread), who.id))
            && Settles(r', v) && r'.answer == Some(|s.comments|) && Unheld(r')
            && r' == r.(state := r'.state, answer := r'.answer, claimedBy := None, tokenHash := None, leaseUntil := None))
      && (!step.outcome.Answered? ==> step.state == s)
  {
  }

  /** An open request is cancelled, whoever holds it; the row says so and nothing else moves. */
  lemma CancelIff(s: Ledger, id: RequestId)
    ensures var step := Apply(s, Cancel(id));
      && (step.outcome.Moved? <==> id < |s.rows| && Open(s.rows[id]))
      && (step.outcome.Moved? ==> step.state == s.(rows := s.rows[id := s.rows[id].(state := Canceled)]))
      && (!step.outcome.Moved? ==> step.state == s)
  {
  }

  /** A request asked back returns to its target when the person who asked replies in its thread, or an admin with a reason does. */
  lemma ReplyIff(s: Ledger, id: RequestId, who: Caller, body: string, reason: string)
    ensures var step := Apply(s, Reply(id, who, body, reason));
      && (step.outcome.Moved? <==>
            && !Blank(body) && who.kind.Human? && id < |s.rows| && s.rows[id].state.InputRequired?
            && (s.rows[id].requester == who.id || (who.admin && !Blank(reason))))
      && (step.outcome.Moved? ==>
            && step.state.rows == s.rows[id := s.rows[id].(state := Submitted, answer := None)]
            && Adds(s, step.state, Comment(s.rows[id].work, Some(s.rows[id].thread), who.id)))
      && (!step.outcome.Moved? ==> step.state == s)
  {
  }

  /** An open needinfo is taken back by whoever asked it, or by an admin with a reason. */
  lemma WithdrawIff(s: Ledger, id: RequestId, who: Caller, reason: string)
    ensures var step := Apply(s, Withdraw(id, who, reason));
      && (step.outcome.Moved? <==>
            && id < |s.rows| && s.rows[id].needInfo && Open(s.rows[id])
            && (s.rows[id].requester == who.id || (who.kind.Human? && who.admin && !Blank(reason))))
      && (step.outcome.Moved? ==>
            && OthersKeep(s, step.state, id) && step.state.rows[id].state.Canceled? && Unheld(step.state.rows[id])
            && step.state.comments == s.comments)
      && (!step.outcome.Moved? ==> step.state == s)
  {
  }

  /** Of the needinfos one comment settles, the one asked first takes it, and only that one. */
  lemma EarliestTakesComment(s: Ledger, author: ActorId, work: WorkId, parent: Option<CommentId>, i: RequestId, j: RequestId)
    requires author in s.actors && i < |s.rows| && j < |s.rows| && i != j
    requires OpenNeedInfo(s.rows[i], author, work) && OpenNeedInfo(s.rows[j], author, work)
    requires s.rows[i].createdAt < s.rows[j].createdAt || (s.rows[i].createdAt == s.rows[j].createdAt && i < j)
    ensures var s' := Apply(s, CommentOnWork(author, work, parent)).state;
      && |s'.rows| == |s.rows| && Adds(s, s', Comment(work, parent, author))
      && s'.rows[j].answer.None? && Unheld(s'.rows[j]) && Unheld(s'.rows[i])
      && (s'.rows[i].answer == Some(|s.comments|) <==>
            forall k :: 0 <= k < |s.rows| && OpenNeedInfo(s.rows[k], author, work) ==>
              s.rows[i].createdAt < s.rows[k].createdAt || (s.rows[i].createdAt == s.rows[k].createdAt && i <= k))
  {
    var s' := Apply(s, CommentOnWork(author, work, parent)).state;
    assert s'.rows[i] == SettledByComment(s.rows, author, work, |s.comments|, i);
    assert s'.rows[j] == SettledByComment(s.rows, author, work, |s.comments|, j);
  }

  // -------------------------------------------------------------------- opening

  /** A fresh request: nobody holds it, it heads no chain yet, and it is due at the given instant. */
  ghost predicate Fresh(r: Row, target: ActorId, requester: ActorId, work: WorkId, thread: CommentId, deadline: Time, now: Time) {
    && r.target == target && r.requester == requester && r.work == work && r.thread == thread
    && r.createdAt == now && r.deadline == deadline && r.state.Submitted? && Unheld(r) && r.generation == 0 && r.answer.None?
  }

  ghost predicate CallerKeyTaken(s: Ledger, key: Option<string>) {
    key.Some? && exists i :: 0 <= i < |s.rows| && s.rows[i].key == Some(CallerKey(key.value))
  }

  /** A request is opened for known actors in an existing thread, due in a day unless a deadline is given; a key in use opens nothing and names its request. */
  lemma CreateIff(s: Ledger, key: Option<string>, target: ActorId, requester: ActorId, work: WorkId, thread: CommentId, deadline: Option<Time>, now: Time)
    ensures var step := Apply(s, Create(key, target, requester, work, thread, deadline, now));
      && (step.outcome.Replayed? <==> CallerKeyTaken(s, key))
      && (step.outcome.Replayed? ==> step.outcome.id < |s.rows| && s.rows[step.outcome.id].key == Some(CallerKey(key.value)))
      && (step.outcome.Opened? <==> !CallerKeyTaken(s, key) && target in s.actors && requester in s.actors && thread < |s.comments|)
      && (step.outcome.Opened? ==>
            && step.outcome.id == |s.rows| && |step.state.rows| == |s.rows| + 1 && s.rows <= step.state.rows
            && step.state.comments == s.comments && !step.state.rows[|s.rows|].needInfo
            && Fresh(step.state.rows[|s.rows|], target, requester, work, thread, if deadline.Some? then deadline.value else now + 24 * HOURS, now))
      && (!step.outcome.Opened? ==> step.state == s)
  {
  }

  /** Who may be asked on this team at this instant: a person who can write there, an agent whose live credential may answer. */
  ghost predicate MayBeAsked(kind: ActorKind, dir: Directory, a: ActorId, now: Time) {
    if kind.Human? then
      a in dir.admins || exists m :: 0 <= m < |dir.members| && dir.members[m].user == a && (dir.members[m].role.Editor? || dir.members[m].role.Owner?)
    else
      exists c :: 0 <= c < |dir.credentials| && dir.credentials[c].user == a && dir.credentials[c].mayAnswer
        && !dir.credentials[c].revoked && (dir.credentials[c].expiresAt.Some? ==> dir.credentials[c].expiresAt.value > now)
  }

  lemma MayBeAskedIff(kind: ActorKind, dir: Directory, a: ActorId, now: Time)
    ensures CanAnswerOnTeam(kind, dir, a, now) <==> MayBeAsked(kind, dir, a, now)
  {
    if !kind.Human? {
      if CanAnswerOnTeam(kind, dir, a, now) {
        var c :| 0 <= c < |dir.credentials| && MayAnswer(dir.credentials[c], a, now);
        assert dir.credentials[c].user == a;
      }
      if MayBeAsked(kind, dir, a, now) {
        var c :| 0 <= c < |dir.credentials| && dir.credentials[c].user == a && dir.credentials[c].mayAnswer
          && !dir.credentials[c].revoked && (dir.credentials[c].expiresAt.Some? ==> dir.credentials[c].expiresAt.value > now);
        assert MayAnswer(dir.credentials[c], a, now);
      }
    }
  }

  /** A needinfo is opened, due in a week, exactly when its key is free and its target is somebody else who can answer and has none open on this work. */
  lemma NeedInfoIff(s: Ledger, key: Option<string>, who: Caller, target: ActorId, work: WorkId, question: string, dir: Directory, now: Time)
    ensures var step := Apply(s, AskNeedInfo(key, who, target, work, question, dir, now));
      && (step.outcome.Opened? <==>
            && !Blank(question) && !CallerKeyTaken(s, key) && target in s.actors && who.id in s.actors && target != who.id
            && !s.actors[target].Service? && (who.kind.Human? || s.actors[target].Human?)
            && MayBeAsked(s.actors[target], dir, target, now)
            && forall i :: 0 <= i < |s.rows| ==>
                 !(s.rows[i].needInfo && s.rows[i].target == target && s.rows[i].work == work && (s.rows[i].state.Submitted? || s.rows[i].state.Working?)))
      && (step.outcome.Opened? ==>
            && |step.state.rows| == |s.rows| + 1 && s.rows <= step.state.rows && step.state.rows[|s.rows|].needInfo
            && Adds(s, step.state, Comment(work, None, who.id))
            && Fresh(step.state.rows[|s.rows|], target, who.id, work, |s.comments|, now + 7 * 24 * HOURS, now))
      && (!step.outcome.Opened? ==> step.state == s)
  {
    if target in s.actors {
      MayBeAskedIff(s.actors[target], dir, target, now);
    }
    forall i | 0 <= i < |s.rows|
      ensures OpenNeedInfo(s.rows[i], target, work) <==>
        s.rows[i].needInfo && s.rows[i].target == target && s.rows[i].work == work && (s.rows[i].state.Submitted? || s.rows[i].state.Working?)
    {
    }
  }

  // ------------------------------------------------------------------ hand-offs

  ghost predicate ChainOver(r: Row, now: Time) {
    now >= (if r.chainDeadline.Some? then r.chainDeadline.value else r.createdAt + 72 * HOURS)
  }

  /** Somebody new to the chain who is active, is no service, can answer on the team, and is a person once hops or time have run out. */
  ghost predicate MayTakeOver(s: Ledger, id: RequestId, dir: Directory, now: Time, a: ActorId)
    requires id < |s.rows|
  {
    && a in s.actors && a in dir.active && !s.actors[a].Service?
    && (forall i :: 0 <= i < |s.rows| && RootOf(s.rows, i) == RootOf(s.rows, id) ==> s.rows[i].target != a)
    && (s.rows[id].hops >= 2 || ChainOver(s.rows[id], now) ==> s.actors[a].Human?)
    && MayBeAsked(s.actors[a], dir, a, now)
  }

  lemma VisitedIsChain(s: Ledger, id: RequestId, a: ActorId)
    requires Inv(s) && id < |s.rows|
    ensures a in Visited(s.rows, RootOf(s.rows, id)) <==>
      exists i :: 0 <= i < |s.rows| && RootOf(s.rows, i) == RootOf(s.rows, id) && s.rows[i].target == a
  {
    var root := RootOf(s.rows, id);
    RootIsRoot(s.rows, id);
    forall i | 0 <= i < |s.rows|
      ensures InChain(s.rows, root, i) <==> RootOf(s.rows, i) == root
    {
      ChainMembership(s.rows, root, i);
    }
  }

  lemma EligibleIff(s: Ledger, id: RequestId, dir: Directory, now: Time, a: ActorId)
    requires Inv(s) && id < |s.rows|
    ensures Judge(HandOffSearch(s, id, dir, now), a).Eligible? <==> MayTakeOver(s, id, dir, now, a)
  {
    VisitedIsChain(s, id, a);
    if a in s.actors {
      MayBeAskedIff(s.actors[a], dir, a, now);
    }
  }

  /** An active person who owns the team. */
  ghost predicate HumanOwner(s: Ledger, dir: Directory, m: Member) {
    m.role.Owner? && m.user in s.actors && s.actors[m.user].Human? && m.user in dir.active
  }

  /** How many active human owners joined before the k-th member. */
  ghost function OwnersBefore(s: Ledger, dir: Directory, members: seq<Member>, k: nat): nat
    requires k <= |members|
  {
    if k == 0 then 0 else (if HumanOwner(s, dir, members[0]) then 1 else 0) + OwnersBefore(s, dir, members[1..], k - 1)
  }

  /** The k-th member is one of the `take` owners who joined first. */
  ghost predicate IsCandidate(s: Ledger, dir: Directory, members: seq<Member>, take: nat, k: nat) {
    k < |members| && HumanOwner(s, dir, members[k]) && OwnersBefore(s, dir, members, k) < take
  }

  /** The k-th member is that candidate, may take over, and no candidate before them may. */
  ghost predicate FirstAt(s: Ledger, id: RequestId, dir: Directory, now: Time, members: seq<Member>, take: nat, a: ActorId, k: nat)
    requires id < |s.rows|
  {
    && IsCandidate(s, dir, members, take, k) && members[k].user == a && MayTakeOver(s, id, dir, now, a)
    && forall j: nat :: j < k && IsCandidate(s, dir, members, take, j) ==> !MayTakeOver(s, id, dir, now, members[j].user)
  }

  /** The pick is the first candidate owner who may take over; there is none only when none may. */
  ghost predicate PicksOwner(s: Ledger, id: RequestId, dir: Directory, now: Time, members: seq<Member>, take: nat, pick: Option<Candidate>)
    requires id < |s.rows|
  {
    match pick
    case Some(c) => c.source.TeamOwner? && exists k: nat :: FirstAt(s, id, dir, now, members, take, c.actor, k)
    case None => forall j: nat :: IsCandidate(s, dir, members, take, j) ==> !MayTakeOver(s, id, dir, now, members[j].user)
  }

  lemma {:induction false} FirstOwner(s: Ledger, id: RequestId, dir: Directory, now: Time, q: Search, members: seq<Member>, take: nat)
    requires Inv(s) && id < |s.rows| && q == HandOffSearch(s, id, dir, now)
    ensures PicksOwner(s, id, dir, now, members, take, FirstEligible(q, TeamOwners(q, members, take)))
    decreases |members|
  {
    if members != [] && take > 0 {
      var owner := HumanOwner(s, dir, members[0]);
      var left: nat := if owner then take - 1 else take;
      var rest := TeamOwners(q, members[1..], left);
      EligibleIff(s, id, dir, now, members[0].user);
      FirstOwner(s, id, dir, now, q, members[1..], left);
      if owner {
        assert TeamOwners(q, members, take) == [Candidate(members[0].user, TeamOwner)] + rest;
      }
      if owner && MayTakeOver(s, id, dir, now, members[0].user) {
        assert FirstAt(s, id, dir, now, members, take, members[0].user, 0);
      } else {
        Shifted(s, id, dir, now, members, take, left, FirstEligible(q, rest));
      }
    }
  }

  /** When the first member is not picked, the pick among the others is the pick. */
  lemma Shifted(s: Ledger, id: RequestId, dir: Directory, now: Time, members: seq<Member>, take: nat, left: nat, pick: Option<Candidate>)
    requires id < |s.rows| && members != [] && take > 0
    requires HumanOwner(s, dir, members[0]) ==> !MayTakeOver(s, id, dir, now, members[0].user)
    requires left == if HumanOwner(s, dir, members[0]) then take - 1 else take
    requires PicksOwner(s, id, dir, now, members[1..], left, pick)
    ensures PicksOwner(s, id, dir, now, members, take, pick)
  {
    forall j: nat | 0 < j < |members|
      ensures members[1..][j - 1] == members[j]
      ensures IsCandidate(s, dir, members, take, j) <==> IsCandidate(s, dir, members[1..], left, j - 1)
    {
    }
    if pick.Some? {
      var k: nat :| FirstAt(s, id, dir, now, members[1..], left, pick.value.actor, k);
      assert FirstAt(s, id, dir, now, members, take, pick.value.actor, k + 1);
    }
  }

  /** The declared successor may take over. */
  ghost predicate DeclaredMay(s: Ledger, id: RequestId, dir: Directory, now: Time)
    requires id < |s.rows|
  {
    s.rows[id].target in dir.successor && MayTakeOver(s, id, dir, now, dir.successor[s.rows[id].target])
  }

  ghost predicate OwnerMay(s: Ledger, id: RequestId, dir: Directory, now: Time)
    requires id < |s.rows|
  {
    s.rows[id].target in dir.owner && MayTakeOver(s, id, dir, now, dir.owner[s.rows[id].target])
  }

  /**
   * Who is asked next: the declared successor if they may take over, else the target's
   * owner if they may, else the first of the five oldest team owners who may, else nobody.
   */
  lemma SuccessorIs(s: Ledger, id: RequestId, dir: Directory, now: Time)
    requires Inv(s) && id < |s.rows|
    ensures var pick := SuccessorOf(s, id, dir, now); var t := s.rows[id].target;
      if DeclaredMay(s, id, dir, now) then pick == Some(Candidate(dir.successor[t], DeclaredSuccessor))
      else if OwnerMay(s, id, dir, now) then pick == Some(Candidate(dir.owner[t], TargetOwner))
      else PicksOwner(s, id, dir, now, dir.members, 5, pick)
  {
    var q := HandOffSearch(s, id, dir, now);
    var t := s.rows[id].target;
    var owners := TeamOwners(q, dir.members, OWNER_CANDIDATES);
    var second := if t in dir.owner then [Candidate(dir.owner[t], TargetOwner)] else [];
    var first := if t in dir.successor then [Candidate(dir.successor[t], DeclaredSuccessor)] else [];
    assert Candidates(q, t) == first + (second + owners);
    FirstOwner(s, id, dir, now, q, dir.members, OWNER_CANDIDATES);
    if t in dir.owner {
      EligibleIff(s, id, dir, now, dir.owner[t]);
    }
    if t in dir.successor {
      EligibleIff(s, id, dir, now, dir.successor[t]);
    }
    AtMostOneFirst(q, second, owners);
    AtMostOneFirst(q, first, second + owners);
  }

  lemma AtMostOneFirst(q: Search, one: seq<Candidate>, rest: seq<Candidate>)
    requires |one| <= 1
    ensures FirstEligible(q, one + rest) == if one != [] && Judge(q, one[0].actor).Eligible? then Some(one[0]) else FirstEligible(q, rest)
  {
    if one == [] {
      assert one + rest == rest;
    } else {
      assert (one + rest)[1..] == rest;
    }
  }

  /** A sweep fails an open request past its deadline and says so in its thread; all but needinfos are handed on when there is a successor. */
  lemma ExpireIff(s: Ledger, id: RequestId, sweeper: ActorId, dir: Directory, now: Time)
    requires Inv(s)
    ensures var step := Apply(s, Expire(id, sweeper, dir, now));
      && (step.outcome.Expired? <==> id < |s.rows| && s.rows[id].deadline <= now && Open(s.rows[id]))
      && (step.outcome.Expired? ==>
            && (step.outcome.next.Some? <==> !s.rows[id].needInfo && SuccessorOf(s, id, dir, now).Some?)
            && Adds(s, step.state, Comment(s.rows[id].work, Some(s.rows[id].thread), sweeper))
            && |step.state.rows| == |s.rows| + (if step.outcome.next.Some? then 1 else 0)
            && step.state.rows[id] == s.rows[id].(state := Failed, root := step.state.rows[id].root)
            && (forall j :: 0 <= j < |s.rows| && j != id ==> step.state.rows[j] == s.rows[j]))
      && (!step.outcome.Expired? ==> step.state == s)
  {
    if id < |s.rows| && s.rows[id].deadline <= now && Open(s.rows[id]) {
      HandOffKeyFree(s, id);
      if SuccessorOf(s, id, dir, now).Some? {
        SuccessorIsNew(s, id, dir, now);
      }
    }
  }

  /** The request the successor gets: the same question in the same thread, one hop on, due in a day, or when an agent's chain ends. */
  lemma HandedOnIs(s: Ledger, id: RequestId, sweeper: ActorId, dir: Directory, now: Time, step: Step)
    requires Inv(s) && step == Apply(s, Expire(id, sweeper, dir, now)) && step.outcome.Expired? && step.outcome.next.Some?
    ensures id < |s.rows| && |step.state.rows| == |s.rows| + 1 && SuccessorOf(s, id, dir, now).Some?
    ensures var r, next := s.rows[id], step.state.rows[|s.rows|];
      var chainEnd := if r.chainDeadline.Some? then r.chainDeadline.value else r.createdAt + 72 * HOURS;
      && next.target == SuccessorOf(s, id, dir, now).value.actor && next.target in s.actors
      && Fresh(next, next.target, r.requester, r.work, r.thread,
               if s.actors[next.target].Human? || now + 24 * HOURS <= chainEnd then now + 24 * HOURS else chainEnd, now)
      && next.hops == r.hops + 1 && next.chainDeadline == Some(chainEnd) && next.root == Some(RootOf(s.rows, id))
      && next.handedOffFrom == Some(id) && !next.needInfo && next.budget.None?
  {
    SuccessorIsNew(s, id, dir, now);
  }

  // ----------------------------------------------------------------- delegation

  /** Everything a delegation is checked for. */
  ghost predicate MayDelegate(s: Ledger, d: Delegation) {
    && d.fromKind.Agent? && 1 <= d.asked <= 100_000 && !Blank(d.body) && !CallerKeyTaken(s, d.key) && d.committed
    && d.from in s.actors && IsParent(s, d.from, d.work, d.parent)
    && d.target in s.actors && s.actors[d.target].Agent? && d.target != d.from && d.credentialed && d.policyAllows
    && (d.parent.None? ==> d.policyCommit)
    && (d.parent.Some? ==>
          && d.parent.value < |s.rows| && s.rows[d.parent.value].hops <= 1
          && (s.rows[d.parent.value].budget.Some? ==> s.rows[d.parent.value].budget.value >= 1)
          && forall i :: 0 <= i < |s.rows| && RootOf(s.rows, i) == RootOf(s.rows, d.parent.value) ==>
               s.rows[i].target != d.target && s.rows[i].requester != d.target)
  }

  lemma ChainActors(s: Ledger, p: RequestId, a: ActorId)
    requires Inv(s) && p < |s.rows|
    ensures InDelegationChain(s, RootOf(s.rows, p), a) <==>
      exists i :: 0 <= i < |s.rows| && RootOf(s.rows, i) == RootOf(s.rows, p) && (s.rows[i].target == a || s.rows[i].requester == a)
  {
    RootIsRoot(s.rows, p);
    forall i | 0 <= i < |s.rows|
      ensures InChain(s.rows, RootOf(s.rows, p), i) <==> RootOf(s.rows, i) == RootOf(s.rows, p)
    {
      ChainMembership(s.rows, RootOf(s.rows, p), i);
    }
  }

  /** A delegation is granted exactly when all of that holds; anything the policy refuses, a cycle, a third hop or an empty balance is not. */
  lemma DelegateIff(s: Ledger, d: Delegation, now: Time)
    requires Inv(s)
    ensures Apply(s, Delegate(d, now)).outcome.Delegated? <==> MayDelegate(s, d)
    ensures !Apply(s, Delegate(d, now)).outcome.Delegated? ==> Apply(s, Delegate(d, now)).state == s
  {
    if d.parent.Some? && d.parent.value < |s.rows| {
      ChainActors(s, d.parent.value, d.target);
    }
  }

  /** The delegated request: a hop further in the parent's chain, or the root of its own, under that chain's deadline. */
  lemma DelegatedIs(s: Ledger, d: Delegation, now: Time, step: Step)
    requires Inv(s) && step == Apply(s, Delegate(d, now)) && step.outcome.Delegated?
    ensures |step.state.rows| == |s.rows| + 1 && (d.parent.Some? ==> d.parent.value < |s.rows|)
    ensures var next := step.state.rows[|s.rows|];
      var chainEnd := if d.parent.Some? && s.rows[d.parent.value].chainDeadline.Some? then s.rows[d.parent.value].chainDeadline.value else now + 72 * HOURS;
      && Fresh(next, d.target, d.from, d.work, |s.comments|, if now + 24 * HOURS <= chainEnd then now + 24 * HOURS else chainEnd, now)
      && Adds(s, step.state, Comment(d.work, None, d.from)) && next.chainDeadline == Some(chainEnd) && !next.needInfo
      && next.root == Some(if d.parent.Some? then RootOf(s.rows, d.parent.value) else |s.rows|)
      && next.hops == (if d.parent.Some? then s.rows[d.parent.value].hops + 1 else 0)
      && step.outcome.id == |s.rows| && next.budget == Some(step.outcome.share)
      && step.outcome.share == (if d.parent.Some? && s.rows[d.parent.value].budget.Some? && s.rows[d.parent.value].budget.value < d.asked
                                then s.rows[d.parent.value].budget.value else d.asked)
      && (forall j :: 0 <= j < |s.rows| ==> step.state.rows[j] == s.rows[j].(budget := step.state.rows[j].budget))
      && (forall j :: 0 <= j < |s.rows| && d.parent != Some(j) ==> step.state.rows[j] == s.rows[j])
  {
    DelegationGranted(s, d, now);
  }

  /** Intake opens one request for a work, due in a day, and then makes it the root of a chain of its own with 100 units and three days. */
  lemma DispatchIs(s: Ledger, gate: ActorId, target: ActorId, work: WorkId, now: Time)
    requires !(exists i :: 0 <= i < |s.rows| && s.rows[i].key == Some(IntakeKey(work)))
    ensures var made := Apply(s, DispatchCreate(gate, target, work, now));
      && (made.outcome.Opened? <==> target in s.actors && s.actors[target].Agent? && gate in s.actors)
      && (made.outcome.Opened? ==>
            && |made.state.rows| == |s.rows| + 1 && s.rows <= made.state.rows && Adds(s, made.state, Comment(work, None, gate))
            && Fresh(made.state.rows[|s.rows|], target, gate, work, |s.comments|, now + 24 * HOURS, now)
            && var linked := Apply(made.state, DispatchLink(work, now));
            && linked.outcome == Moved(|s.rows|)
            && linked.state == made.state.(rows := made.state.rows[|s.rows| := made.state.rows[|s.rows|]
                 .(root := Some(|s.rows|), hops := 0, chainDeadline := Some(now + 72 * HOURS), budget := Some(100))]))
  {
    var made := Apply(s, DispatchCreate(gate, target, work, now));
    if made.outcome.Opened? {
      assert made.state.rows[|s.rows|].key == Some(IntakeKey(work));
      assert KeyUsed(made.state, Some(IntakeKey(work)));
      forall i | 0 <= i < |s.rows|
        ensures made.state.rows[i].key != Some(IntakeKey(work))
      {
        assert made.state.rows[i] == s.rows[i];
      }
    }
  }
}
