/** What the request ledger guarantees over whole runs. */
module RequestTheorems {
  import opened Wrappers
  import opened RequestStates
  import opened RequestModel
  import opened RequestInvariants

  // ------------------------------------------------------------------ fencing

  /**
   * In every interleaving: once a request has a later generation than the one
   * token `t` was minted for, `t` never again renews a claim nor commits an answer,
   * however long ago the answering transaction did its read.
   */
  lemma StaleTokenFenced(actors: map<ActorId, ActorKind>, before: seq<Event>, after: seq<Event>, e: Event, t: Token, u: Token)
    requires var s := Run(Init(actors), before);
      t < |s.minted| && u < |s.minted| && s.minted[u].id == s.minted[t].id && s.minted[u].generation > s.minted[t].generation
    ensures var outcome := Apply(Run(Run(Init(actors), before), after), e).outcome;
      && !(outcome.Renewed? && outcome.token == t)
      && !(outcome.Answered? && outcome.holder == Some(t))
  {
    var mid := Run(Init(actors), before);
    InitOk(actors);
    RunKeeps(Init(actors), before);
    RunKeeps(mid, after);
    var s := Run(mid, after);
    assert s.minted[t] == mid.minted[t] && s.minted[u] == mid.minted[u];
    var i := s.minted[t].id;
    assert s.minted[t].generation < s.rows[i].generation;
    forall j | 0 <= j < |s.rows|
      ensures s.rows[j].tokenHash != Some(Sha256(t))
    {
      assert RowOk(s, j);
    }
    UnstoredTokenPowerless(s, e, t);
  }

  /** A token whose digest no row stores moves nothing. */
  lemma UnstoredTokenPowerless(s: Ledger, e: Event, t: Token)
    requires forall j :: 0 <= j < |s.rows| ==> s.rows[j].tokenHash != Some(Sha256(t))
    ensures var outcome := Apply(s, e).outcome;
      && !(outcome.Renewed? && outcome.token == t)
      && !(outcome.Answered? && outcome.holder == Some(t))
  {
    match e
    case Claim(id, actor, presented, leaseMs, now) =>
    case CommitAnswer(session, verdict) =>
    case _ =>
  }

  /** The fence does not shut out the current holder: its token renews, and a read followed by its commit answers. */
  lemma CurrentHolderSucceeds(s: Ledger, i: RequestId, now: Time, leaseMs: Option<int>, session: SessionId, body: string, v: Verdict)
    requires Inv(s) && i < |s.rows| && s.rows[i].state.Working? && RowOk(s, i) && s.rows[i].leaseUntil.value > now
    requires !Text.Blank(body)
    ensures var t := s.rows[i].tokenHash.value.preimage;
      && Apply(s, Claim(i, s.rows[i].target, Some(t), leaseMs, now)).outcome == Renewed(i, t)
      && var read := Apply(s, ReadForAnswer(session, i, s.rows[i].target, t, body, now));
      && read.outcome.ReadOk?
      && Apply(read.state, CommitAnswer(session, v)).outcome == Answered(i, Some(t), |s.comments|)
  {
    var t := s.rows[i].tokenHash.value.preimage;
    var read := Apply(s, ReadForAnswer(session, i, s.rows[i].target, t, body, now));
    assert read.outcome.ReadOk? && read.state.rows == s.rows;
  }

  /** A take always mints the next generation; while a lease is live nobody takes, not even the same actor. */
  lemma TakeMintsNextGeneration(s: Ledger, id: RequestId, actor: ActorId, presented: Option<Token>, leaseMs: Option<int>, now: Time)
    requires Inv(s)
    ensures var step := Apply(s, Claim(id, actor, presented, leaseMs, now));
      step.outcome.Taken? ==>
        && id < |s.rows| && s.rows[id].target == actor
        && (s.rows[id].leaseUntil.None? || s.rows[id].leaseUntil.value < now)
        && step.outcome.generation == s.rows[id].generation + 1 == step.state.rows[id].generation
        && step.outcome.token !in (set j, h | 0 <= j < |s.rows| && h in {s.rows[j].tokenHash} && h.Some? :: h.value.preimage)
  {
    if id < |s.rows| {
      assert RowOk(s, id);
    }
    forall j | 0 <= j < |s.rows|
      ensures s.rows[j].tokenHash != Some(Sha256(|s.minted|))
    {
      assert RowOk(s, j);
    }
  }

  /**
   * Whose claim succeeds, told by the table of minted tokens: a renewal needs the token
   * of the current generation and a live lease, a take needs no live lease, and each
   * changes that one row only.
   */
  lemma ClaimOutcomeIff(s: Ledger, id: RequestId, actor: ActorId, presented: Option<Token>, leaseMs: Option<int>, now: Time)
    requires Inv(s) && id < |s.rows|
    ensures var r := s.rows[id]; var step := Apply(s, Claim(id, actor, presented, leaseMs, now));
      && (step.outcome.Renewed? <==>
            && r.state.Working? && r.target == actor && r.leaseUntil.Some? && r.leaseUntil.value > now
            && presented.Some? && presented.value < |s.minted| && s.minted[presented.value] == Mint(id, r.generation))
      && (step.outcome.Taken? <==>
            IsClaimable(r.state) && r.target == actor && (!r.state.Working? || (r.leaseUntil.Some? && r.leaseUntil.value < now)))
      && (step.outcome.Renewed? ==> step.state == s.(rows := s.rows[id := r.(leaseUntil := step.state.rows[id].leaseUntil)]))
      && (step.outcome.Refused? ==> step.state == s)
  {
    assert RowOk(s, id);
  }

  /**
   * The two halves of an answer, with any run of other sessions between them: the commit
   * goes through exactly when the request is still WORKING at the generation the read
   * saw, and then the answer stands in the request's own thread.
   */
  lemma AnswerCommitsIff(s0: Ledger, read: Event, between: seq<Event>, s1: Ledger, v: Verdict)
    requires Inv(s0) && read.ReadForAnswer? && Apply(s0, read).outcome.ReadOk?
    requires s1 == Run(Apply(s0, read).state, between)
    requires read.session in s1.inFlight && s1.inFlight[read.session] == Apply(s0, read).state.inFlight[read.session]
    ensures read.id < |s0.rows| && read.id < |s1.rows|
    ensures var step := Apply(s1, CommitAnswer(read.session, v)); var r := s1.rows[read.id];
      && (step.outcome.Answered? <==> r.state.Working? && r.generation == s0.rows[read.id].generation)
      && (step.outcome.Answered? ==>
            && step.state.comments == s1.comments + [Comment(r.work, Some(r.thread), r.target)]
            && |step.state.rows| == |s1.rows|
            && var r' := step.state.rows[read.id];
            && r'.answer == Some(|s1.comments|)
            && (r'.state.Completed? <==> v.AnswerCompleted?) && (r'.state.Failed? <==> v.AnswerFailed?)
            && (r'.state.InputRequired? <==> v.AskBack?)
            && (v.AskBack? ==> r'.claimedBy.None? && r'.tokenHash.None? && r'.leaseUntil.None?)
            && (!v.AskBack? ==> r' == r.(state := r'.state, answer := r'.answer))
            && (forall j :: 0 <= j < |s1.rows| && j != read.id ==> step.state.rows[j] == s1.rows[j]))
      && (!step.outcome.Answered? ==> step.state.rows == s1.rows && step.state.comments == s1.comments)
  {
    StepKeeps(s0, read);
    var mid := Apply(s0, read).state;
    assert RowOk(s0, read.id) && mid.rows == s0.rows && mid.minted == s0.minted;
    RunKeeps(mid, between);
    HeldMeansGeneration(s1, read.id, read.token, s0.rows[read.id].generation);
    assert RowEvolves(mid.rows[read.id], s1.rows[read.id]);
    CommitEffects(s1, read.session, v, Read(read.id, read.actor, read.token, s0.rows[read.id].work, s0.rows[read.id].thread));
  }

  /** A commit, from what its session read: it goes through exactly while the row still holds that claim. */
  lemma CommitEffects(s: Ledger, session: SessionId, v: Verdict, held: Read)
    requires session in s.inFlight && s.inFlight[session] == held && held.id < |s.rows|
    ensures var step := Apply(s, CommitAnswer(session, v));
      && (step.outcome.Answered? <==> StillHolds(s.rows[held.id], held))
      && (step.outcome.Answered? ==>
            && step.state.comments == s.comments + [Comment(held.work, Some(held.thread), held.actor)]
            && |step.state.rows| == |s.rows|
            && var r' := step.state.rows[held.id];
            && r'.answer == Some(|s.comments|)
            && (r'.state.Completed? <==> v.AnswerCompleted?) && (r'.state.Failed? <==> v.AnswerFailed?)
            && (r'.state.InputRequired? <==> v.AskBack?)
            && (v.AskBack? ==> r'.claimedBy.None? && r'.tokenHash.None? && r'.leaseUntil.None?)
            && (!v.AskBack? ==> r' == s.rows[held.id].(state := r'.state, answer := r'.answer))
            && (forall j :: 0 <= j < |s.rows| && j != held.id ==> step.state.rows[j] == s.rows[j]))
      && (!step.outcome.Answered? ==> step.state.rows == s.rows && step.state.comments == s.comments)
  {
  }

  /** Of a token minted for some generation: the row stores it while open exactly when it is WORKING at that generation. */
  lemma HeldMeansGeneration(s: Ledger, id: RequestId, t: Token, g: nat)
    requires Inv(s) && id < |s.rows| && t < |s.minted| && s.minted[t] == Mint(id, g)
    ensures s.rows[id].tokenHash == Some(Sha256(t)) && IsClaimable(s.rows[id].state)
      <==> s.rows[id].state.Working? && s.rows[id].generation == g
    ensures s.rows[id].state.Working? ==> s.rows[id].claimedBy == Some(s.rows[id].target)
  {
    assert RowOk(s, id);
    if s.rows[id].state.Working? && s.rows[id].generation == g {
      var u := s.rows[id].tokenHash.value.preimage;
      assert s.minted[u] == s.minted[t];
      assert !(u < t) && !(t < u);
    }
  }

  // --------------------------------------------------------- terminal at most once

  ghost predicate IsClosed(s: Ledger, i: RequestId) { i < |s.rows| && IsTerminal(s.rows[i].state) }

  /** How many steps of a run moved request `i` into a terminal state. */
  ghost function TerminalMoves(s: Ledger, events: seq<Event>, i: RequestId): nat {
    if events == [] then 0
    else
      var prefix := events[..|events| - 1];
      TerminalMoves(s, prefix, i) + (if !IsClosed(Run(s, prefix), i) && IsClosed(Run(s, events), i) then 1 else 0)
  }

  /** At most one move into a terminal state ever commits per request. */
  lemma {:induction false} TerminalAtMostOnce(s: Ledger, events: seq<Event>, i: RequestId)
    requires Inv(s)
    ensures TerminalMoves(s, events, i) <= 1
    ensures TerminalMoves(s, events, i) == 1 <==> !IsClosed(s, i) && IsClosed(Run(s, events), i)
    decreases |events|
  {
    if events != [] {
      var prefix := events[..|events| - 1];
      TerminalAtMostOnce(s, prefix, i);
      RunKeeps(s, prefix);
      StepKeeps(Run(s, prefix), events[|events| - 1]);
      if IsClosed(Run(s, prefix), i) {
        assert RowEvolves(Run(s, prefix).rows[i], Run(s, events).rows[i]);
      }
      if IsClosed(s, i) {
        assert RowEvolves(s.rows[i], Run(s, prefix).rows[i]);
      }
    }
  }

  // ------------------------------------------------------------ every reachable row

  /** The shape of every row of every reachable ledger. */
  lemma ReachableRow(actors: map<ActorId, ActorKind>, events: seq<Event>, i: RequestId)
    requires i < |Run(Init(actors), events).rows|
    ensures var s := Run(Init(actors), events); var r := s.rows[i];
      && (r.state.Submitted? || r.state.InputRequired? ==> r.claimedBy.None? && r.tokenHash.None? && r.leaseUntil.None?)
      && (r.state.Working? ==> r.claimedBy == Some(r.target) && r.tokenHash.Some? && r.leaseUntil.Some?)
      && (r.tokenHash.Some? ==> r.tokenHash.value.preimage < |s.minted| && s.minted[r.tokenHash.value.preimage] == Mint(i, r.generation))
      && (r.state.Completed? && !r.needInfo ==> AnsweredInThread(s, r))
      && (r.hops >= MAX_HANDOFF_HOPS ==> r.target in s.actors && s.actors[r.target].Human?)
  {
    InitOk(actors);
    RunKeeps(Init(actors), events);
    assert RowOk(Run(Init(actors), events), i);
    assert ChainRowOk(Run(Init(actors), events), i);
  }

  /** The claim generation never decreases, and a terminal row never changes its state, answer or claim. */
  lemma RowHistory(actors: map<ActorId, ActorKind>, before: seq<Event>, after: seq<Event>, i: RequestId)
    requires i < |Run(Init(actors), before).rows|
    ensures var s := Run(Init(actors), before); var s' := Run(s, after);
      && i < |s'.rows| && s.rows[i].generation <= s'.rows[i].generation
      && (IsTerminal(s.rows[i].state) ==> s'.rows[i].state == s.rows[i].state && s'.rows[i].answer == s.rows[i].answer)
  {
    InitOk(actors);
    RunKeeps(Init(actors), before);
    RunKeeps(Run(Init(actors), before), after);
    assert RowEvolves(Run(Init(actors), before).rows[i], Run(Run(Init(actors), before), after).rows[i]);
  }

  // -------------------------------------------------------------------- chains

  ghost function ChainTargets(rows: seq<Row>, root: RequestId, n: nat): set<ActorId>
    requires n <= |rows|
  {
    set i | 0 <= i < n && RootOf(rows, i) == root :: rows[i].target
  }

  ghost function ChainLength(rows: seq<Row>, root: RequestId, n: nat): nat
    requires n <= |rows|
  {
    if n == 0 then 0 else ChainLength(rows, root, n - 1) + (if RootOf(rows, n - 1) == root then 1 else 0)
  }

  lemma {:induction false} ChainLengthIsTargets(rows: seq<Row>, root: RequestId, n: nat)
    requires TargetsDistinct(rows) && n <= |rows|
    ensures ChainLength(rows, root, n) == |ChainTargets(rows, root, n)|
  {
    if n > 0 {
      ChainLengthIsTargets(rows, root, n - 1);
      var smaller := ChainTargets(rows, root, n - 1);
      if RootOf(rows, n - 1) == root {
        assert ChainTargets(rows, root, n) == smaller + {rows[n - 1].target};
        assert rows[n - 1].target !in smaller;
      } else {
        assert ChainTargets(rows, root, n) == smaller;
      }
    }
  }

  lemma SubsetSize<T>(a: set<T>, b: set<T>)
    requires a <= b
    ensures |a| <= |b|
  {
    assert |b| == |a| + |b - a| by {
      assert a + (b - a) == b;
    }
  }

  lemma ChainFits(s: Ledger, root: RequestId)
    requires Inv(s)
    ensures ChainLength(s.rows, root, |s.rows|) <= |s.actors|
  {
    ChainLengthIsTargets(s.rows, root, |s.rows|);
    forall i | 0 <= i < |s.rows|
      ensures s.rows[i].target in s.actors
    {
      assert RowOk(s, i);
    }
    SubsetSize(ChainTargets(s.rows, root, |s.rows|), s.actors.Keys);
    assert |s.actors.Keys| == |s.actors|;
  }

  /** In every reachable ledger the requests of one chain have pairwise distinct targets, so there are at most as many as actors. */
  lemma ChainsAreShort(actors: map<ActorId, ActorKind>, events: seq<Event>, root: RequestId)
    ensures var s := Run(Init(actors), events);
      && TargetsDistinct(s.rows)
      && ChainLength(s.rows, root, |s.rows|) <= |actors|
  {
    InitOk(actors);
    RunKeeps(Init(actors), events);
    ChainFits(Run(Init(actors), events), root);
  }

  /** A step that hands a request of this chain to someone else. */
  ghost predicate HandsOff(s: Ledger, e: Event, root: RequestId) {
    var outcome := Apply(s, e).outcome;
    outcome.Expired? && outcome.next.Some? && outcome.id < |s.rows| && RootOf(s.rows, outcome.id) == root
  }

  ghost function HandOffs(s: Ledger, events: seq<Event>, root: RequestId): nat {
    if events == [] then 0
    else
      var prefix := events[..|events| - 1];
      HandOffs(s, prefix, root) + (if HandsOff(Run(s, prefix), events[|events| - 1], root) then 1 else 0)
  }

  lemma {:induction false} ChainLengthStable(rows: seq<Row>, rows': seq<Row>, root: RequestId, n: nat)
    requires n <= |rows| && n <= |rows'|
    requires forall i :: 0 <= i < n ==> RootOf(rows', i) == RootOf(rows, i)
    ensures ChainLength(rows', root, n) == ChainLength(rows, root, n)
  {
    if n > 0 {
      ChainLengthStable(rows, rows', root, n - 1);
    }
  }

  lemma {:induction false} ChainLengthGrows(rows: seq<Row>, root: RequestId, m: nat, n: nat)
    requires m <= n <= |rows|
    ensures ChainLength(rows, root, m) <= ChainLength(rows, root, n)
    decreases n
  {
    if m < n {
      ChainLengthGrows(rows, root, m, n - 1);
    }
  }

  lemma HandOffLengthens(s: Ledger, e: Event, root: RequestId)
    requires Inv(s)
    ensures var s' := Apply(s, e).state;
      ChainLength(s'.rows, root, |s'.rows|) >= ChainLength(s.rows, root, |s.rows|) + (if HandsOff(s, e, root) then 1 else 0)
  {
    var s' := Apply(s, e).state;
    StepKeeps(s, e);
    ChainLengthStable(s.rows, s'.rows, root, |s.rows|);
    ChainLengthGrows(s'.rows, root, |s.rows|, |s'.rows|);
    if HandsOff(s, e, root) {
      HandOffAddsOne(s, e, root);
    }
  }

  lemma HandOffAddsOne(s: Ledger, e: Event, root: RequestId)
    requires HandsOff(s, e, root)
    ensures var s' := Apply(s, e).state; |s'.rows| == |s.rows| + 1 && RootOf(s'.rows, |s.rows|) == root
  {
    match e
    case Expire(id, sweeper, dir, now) =>
    case _ =>
  }

  /** However often a chain is swept, it is handed on no more often than there are actors. */
  lemma SweepingStops(actors: map<ActorId, ActorKind>, events: seq<Event>, root: RequestId)
    ensures HandOffs(Init(actors), events, root) <= |actors|
  {
    HandOffsLengthen(Init(actors), events, root, actors);
    ChainsAreShort(actors, events, root);
  }

  lemma {:induction false} HandOffsLengthen(s: Ledger, events: seq<Event>, root: RequestId, actors: map<ActorId, ActorKind>)
    requires s == Init(actors)
    ensures HandOffs(s, events, root) <= ChainLength(Run(s, events).rows, root, |Run(s, events).rows|)
    decreases |events|
  {
    if events != [] {
      var prefix := events[..|events| - 1];
      HandOffsLengthen(s, prefix, root, actors);
      InitOk(actors);
      RunKeeps(s, prefix);
      HandOffLengthens(Run(s, prefix), events[|events| - 1], root);
    }
  }

  /**
   * A hand-off opens a live request for somebody new: its deadline lies strictly
   * after the sweep, an agent's is capped by the chain, and from MAX_HANDOFF_HOPS
   * on it goes to a person. The request it came from is failed and is never handed off again.
   */
  lemma HandOffIsLive(s: Ledger, id: RequestId, sweeper: ActorId, dir: Directory, now: Time)
    requires Inv(s)
    ensures var step := Apply(s, Expire(id, sweeper, dir, now));
      step.outcome.Expired? && step.outcome.next.Some? ==>
        && step.outcome.next == Some(|s.rows|) && |step.state.rows| == |s.rows| + 1
        && var next := step.state.rows[|s.rows|];
        && next.state.Submitted? && next.handedOffFrom == Some(id) && next.thread == s.rows[id].thread
        && now < next.deadline && !Overdue(step.state, |s.rows|, now)
        && (!s.actors[next.target].Human? ==> next.deadline <= ChainDeadline(s.rows[id]))
        && (next.hops >= MAX_HANDOFF_HOPS ==> s.actors[next.target].Human?)
        && step.state.rows[id].state.Failed?
        && forall i :: 0 <= i < |s.rows| ==> s.rows[i].handedOffFrom != Some(id)
  {
    var step := Apply(s, Expire(id, sweeper, dir, now));
    if step.outcome.Expired? && step.outcome.next.Some? {
      ExpireKeeps(s, id, sweeper, dir, now);
      assert ChainRowOk(step.state, |s.rows|);
      assert RowOk(step.state, |s.rows|);
      HandOffKeyFree(s, id);
      forall i | 0 <= i < |s.rows|
        ensures s.rows[i].handedOffFrom != Some(id)
      {
        assert ChainRowOk(s, i);
      }
    }
  }

  /**
   * Unlike a hand-off, a delegation can be overdue when it is opened: its deadline
   * is in the future exactly when the deadline of the chain it joins is.
   */
  lemma DelegationLiveIff(s: Ledger, d: Delegation, now: Time)
    requires Inv(s) && Apply(s, Delegate(d, now)).outcome.Delegated?
    ensures var s' := Apply(s, Delegate(d, now)).state;
      !Overdue(s', |s.rows|, now) <==> DelegationDeadline(s, d.parent, now) > now
  {
    DelegationGranted(s, d, now);
    var s' := Apply(s, Delegate(d, now)).state;
    assert s'.rows[|s.rows|] == DelegatedRow(s, d, Apply(s, Delegate(d, now)).outcome.share, now);
  }

  // -------------------------------------------------------------------- budgets

  ghost function Balance(r: Row): int { r.budget.GetOr(0) }

  ghost function ChainBudget(rows: seq<Row>, root: RequestId, n: nat): int
    requires n <= |rows|
  {
    if n == 0 then 0 else ChainBudget(rows, root, n - 1) + (if RootOf(rows, n - 1) == root then Balance(rows[n - 1]) else 0)
  }

  ghost function TotalBudget(s: Ledger, root: RequestId): int { ChainBudget(s.rows, root, |s.rows|) }

  /** Every request of the chain carries a balance, and none is overdrawn. */
  ghost predicate Budgeted(s: Ledger, root: RequestId) {
    forall i :: 0 <= i < |s.rows| && RootOf(s.rows, i) == root ==> s.rows[i].budget.Some? && s.rows[i].budget.value >= 0
  }

  /** Changing balances at one position shifts the sum by the difference there. */
  lemma {:induction false} ChainBudgetShift(rows: seq<Row>, rows': seq<Row>, root: RequestId, n: nat, p: nat)
    requires n <= |rows| && n <= |rows'|
    requires forall i :: 0 <= i < n ==> RootOf(rows', i) == RootOf(rows, i)
    requires forall i :: 0 <= i < n && i != p ==> rows'[i].budget == rows[i].budget
    ensures ChainBudget(rows', root, n) == ChainBudget(rows, root, n)
      + (if p < n && RootOf(rows, p) == root then Balance(rows'[p]) - Balance(rows[p]) else 0)
  {
    if n > 0 {
      ChainBudgetShift(rows, rows', root, n - 1, p);
    }
  }

  /** A granted share moves from the parent to the child; a chain total changes exactly when the parent carries no balance. */
  lemma DelegationMovesBudget(s: Ledger, d: Delegation, now: Time, root: RequestId)
    requires Inv(s) && Apply(s, Delegate(d, now)).outcome.Delegated?
    ensures var step := Apply(s, Delegate(d, now)); var share := step.outcome.share;
      && 1 <= share <= d.asked
      && |step.state.rows| == |s.rows| + 1 && step.state.rows[|s.rows|].budget == Some(share)
      && (d.parent.Some? ==> d.parent.value < |s.rows|)
      && (d.parent.Some? && s.rows[d.parent.value].budget.Some? ==>
            && share <= s.rows[d.parent.value].budget.value
            && step.state.rows[d.parent.value].budget == Some(s.rows[d.parent.value].budget.value - share))
      && TotalBudget(step.state, root) == TotalBudget(s, root)
           + (if RootOf(step.state.rows, |s.rows|) != root then 0
              else if d.parent.Some? && s.rows[d.parent.value].budget.Some? then 0 else share)
  {
    DelegationGranted(s, d, now);
    DelegateKeeps(s, d, now);
    var s' := Apply(s, Delegate(d, now)).state;
    var n := |s.rows|;
    var p := if d.parent.Some? then d.parent.value else n;
    forall i | 0 <= i < n
      ensures RootOf(s'.rows, i) == RootOf(s.rows, i)
    {
    }
    ChainBudgetShift(s.rows, s'.rows, root, n, p);
  }

  /** Steps after which a chain's total may differ: a hand-off brings a request without a balance, a dispatch link refills the root. */
  ghost predicate Refills(s: Ledger, e: Event, root: RequestId) {
    HandsOff(s, e, root) || (e.DispatchLink? && Apply(s, e).outcome == Moved(root))
  }

  lemma UntouchedBudget(s: Ledger, s': Ledger, root: RequestId)
    requires Evolves(s, s') && root < |s.rows| && Budgeted(s, root)
    requires forall i :: 0 <= i < |s.rows| && RootOf(s.rows, i) == root ==> s'.rows[i].budget == s.rows[i].budget
    requires |s'.rows| == |s.rows| || (|s'.rows| == |s.rows| + 1 && RootOf(s'.rows, |s.rows|) != root)
    ensures Budgeted(s', root) && TotalBudget(s', root) == TotalBudget(s, root)
  {
    SameBudgetInChain(s.rows, s'.rows, root, |s.rows|);
    forall i | 0 <= i < |s'.rows| && RootOf(s'.rows, i) == root
      ensures s'.rows[i].budget.Some? && s'.rows[i].budget.value >= 0
    {
      assert i < |s.rows| && RootOf(s.rows, i) == root;
    }
  }

  lemma {:induction false} SameBudgetInChain(rows: seq<Row>, rows': seq<Row>, root: RequestId, n: nat)
    requires n <= |rows| && n <= |rows'|
    requires forall i :: 0 <= i < n ==> RootOf(rows', i) == RootOf(rows, i)
    requires forall i :: 0 <= i < n && RootOf(rows, i) == root ==> rows'[i].budget == rows[i].budget
    ensures ChainBudget(rows', root, n) == ChainBudget(rows, root, n)
  {
    if n > 0 {
      SameBudgetInChain(rows, rows', root, n - 1);
    }
  }

  lemma StepConservesBudget(s: Ledger, e: Event, root: RequestId)
    requires Inv(s) && root < |s.rows| && RootOf(s.rows, root) == root && Budgeted(s, root) && !Refills(s, e, root)
    ensures var s' := Apply(s, e).state; Budgeted(s', root) && TotalBudget(s', root) == TotalBudget(s, root)
  {
    var s' := Apply(s, e).state;
    StepKeeps(s, e);
    if e.Delegate? && Apply(s, e).outcome.Delegated? {
      DelegationConserves(s, e.d, e.now, root);
    } else {
      OtherStepsLeaveBudget(s, e, root);
      UntouchedBudget(s, s', root);
    }
  }

  lemma DelegationConserves(s: Ledger, d: Delegation, now: Time, root: RequestId)
    requires Inv(s) && root < |s.rows| && RootOf(s.rows, root) == root && Budgeted(s, root)
    requires Apply(s, Delegate(d, now)).outcome.Delegated?
    ensures var s' := Apply(s, Delegate(d, now)).state;
      Budgeted(s', root) && TotalBudget(s', root) == TotalBudget(s, root)
  {
    DelegationMovesBudget(s, d, now, root);
    DelegationGranted(s, d, now);
    DelegateKeeps(s, d, now);
    var s' := Apply(s, Delegate(d, now)).state;
    forall i | 0 <= i < |s'.rows| && RootOf(s'.rows, i) == root
      ensures s'.rows[i].budget.Some? && s'.rows[i].budget.value >= 0
    {
      if i < |s.rows| {
        assert RootOf(s.rows, i) == root;
      }
    }
    if RootOf(s'.rows, |s.rows|) == root {
      assert d.parent.Some? && RootOf(s.rows, d.parent.value) == root;
    }
  }

  /** The step adds at most one row, outside this chain, and leaves the balances of this chain alone. */
  ghost predicate LeavesBudget(s: Ledger, s': Ledger, root: RequestId) {
    && |s.rows| <= |s'.rows| <= |s.rows| + 1
    && (forall i :: 0 <= i < |s.rows| && RootOf(s.rows, i) == root ==> s'.rows[i].budget == s.rows[i].budget)
    && (|s'.rows| == |s.rows| + 1 ==> RootOf(s'.rows, |s.rows|) != root)
  }

  lemma OtherStepsLeaveBudget(s: Ledger, e: Event, root: RequestId)
    requires Inv(s) && root < |s.rows| && !Refills(s, e, root)
    requires !(e.Delegate? && Apply(s, e).outcome.Delegated?)
    ensures LeavesBudget(s, Apply(s, e).state, root)
  {
    if e.Expire? || e.Delegate? || e.DispatchCreate? || e.DispatchLink? {
      ChainStepsLeaveBudget(s, e, root);
    } else if e.CommentOnWork? {
      var step := Apply(s, e);
      if step.outcome.Commented? {
        forall i | 0 <= i < |s.rows|
          ensures step.state.rows[i].budget == s.rows[i].budget
        {
          assert step.state.rows[i] == SettledByComment(s.rows, e.author, e.work, |s.comments|, i);
        }
      }
    } else {
      RowStepsLeaveBudget(s, e, root);
    }
  }

  lemma ChainStepsLeaveBudget(s: Ledger, e: Event, root: RequestId)
    requires Inv(s) && root < |s.rows| && !Refills(s, e, root)
    requires !(e.Delegate? && Apply(s, e).outcome.Delegated?)
    requires e.Expire? || e.Delegate? || e.DispatchCreate? || e.DispatchLink?
    ensures LeavesBudget(s, Apply(s, e).state, root)
  {
    var step := Apply(s, e);
    if e.DispatchLink? && step.outcome.Moved? {
      assert ChainRowOk(s, step.outcome.id);
      assert RootOf(s.rows, step.outcome.id) == step.outcome.id;
    }
  }

  lemma RowStepsLeaveBudget(s: Ledger, e: Event, root: RequestId)
    requires root < |s.rows|
    requires e.Create? || e.AskNeedInfo? || e.Claim? || e.ReadForAnswer? || e.CommitAnswer? || e.HumanAnswer? || e.Cancel? || e.Reply? || e.Withdraw?
    ensures LeavesBudget(s, Apply(s, e).state, root)
  {
  }

  /**
   * From a root that carries a budget, any run without hand-offs or re-dispatches of
   * that chain keeps its balances summing to the same total, each of them non-negative.
   */
  lemma {:induction false} BudgetConserved(s: Ledger, events: seq<Event>, root: RequestId)
    requires Inv(s) && root < |s.rows| && RootOf(s.rows, root) == root && Budgeted(s, root)
    requires forall k :: 0 <= k < |events| ==> !Refills(Run(s, events[..k]), events[k], root)
    ensures Budgeted(Run(s, events), root)
    ensures TotalBudget(Run(s, events), root) == TotalBudget(s, root)
    decreases |events|
  {
    if events != [] {
      var prefix := events[..|events| - 1];
      forall k | 0 <= k < |prefix|
        ensures !Refills(Run(s, prefix[..k]), prefix[k], root)
      {
        assert prefix[..k] == events[..k];
      }
      BudgetConserved(s, prefix, root);
      RunKeeps(s, prefix);
      StepConservesBudget(Run(s, prefix), events[|events| - 1], root);
    }
  }

  /** Dispatching the same work again refills its root: the chain total is kept exactly when the root still had it all. */
  lemma DispatchLinkRefills(s: Ledger, work: WorkId, now: Time)
    requires Inv(s) && Apply(s, DispatchLink(work, now)).outcome.Moved?
    ensures var step := Apply(s, DispatchLink(work, now)); var root := step.outcome.id;
      && root < |s.rows| && RootOf(step.state.rows, root) == root
      && TotalBudget(step.state, root) == TotalBudget(s, root) - Balance(s.rows[root]) + DEFAULT_DISPATCH_BUDGET
      && (TotalBudget(step.state, root) == TotalBudget(s, root) <==> Balance(s.rows[root]) == DEFAULT_DISPATCH_BUDGET)
  {
    var step := Apply(s, DispatchLink(work, now));
    var root := step.outcome.id;
    assert ChainRowOk(s, root);
    DispatchLinkKeeps(s, work, now);
    ChainBudgetShift(s.rows, step.state.rows, root, |s.rows|, root);
  }

  // ------------------------------------------------------------------- needinfo

  ghost predicate AtMostOneOpen(s: Ledger, target: ActorId, work: WorkId) {
    forall i, j :: 0 <= i < j < |s.rows| ==> !(OpenNeedInfo(s.rows[i], target, work) && OpenNeedInfo(s.rows[j], target, work))
  }

  /**
   * A comment completes every open needinfo of its author on the work, and gives
   * its id to one of them: each gets an answer exactly when there is only one.
   */
  lemma CommentAnswersAllIff(s: Ledger, author: ActorId, work: WorkId, parent: Option<CommentId>)
    requires author in s.actors
    ensures var s' := Apply(s, CommentOnWork(author, work, parent)).state;
      && |s'.rows| == |s.rows|
      && (forall i :: 0 <= i < |s.rows| && OpenNeedInfo(s.rows[i], author, work) ==> s'.rows[i].state.Completed?)
      && (forall i :: 0 <= i < |s.rows| && !OpenNeedInfo(s.rows[i], author, work) ==> s'.rows[i] == s.rows[i])
      && ((forall i :: 0 <= i < |s.rows| && OpenNeedInfo(s.rows[i], author, work) ==> s'.rows[i].answer == Some(|s.comments|))
          <==> AtMostOneOpen(s, author, work))
  {
    var s' := Apply(s, CommentOnWork(author, work, parent)).state;
    forall i | 0 <= i < |s.rows|
      ensures s'.rows[i] == SettledByComment(s.rows, author, work, |s.comments|, i)
    {
    }
    if forall i :: 0 <= i < |s.rows| && OpenNeedInfo(s.rows[i], author, work) ==> s'.rows[i].answer == Some(|s.comments|) {
      forall i, j | 0 <= i < j < |s.rows|
        ensures !(OpenNeedInfo(s.rows[i], author, work) && OpenNeedInfo(s.rows[j], author, work))
      {
        assert OpenNeedInfo(s.rows[j], author, work) ==> EarliestOpen(s.rows, author, work, j);
      }
    }
  }

  lemma RunSnoc(s: Ledger, events: seq<Event>, e: Event)
    ensures Run(s, events + [e]) == Apply(Run(s, events), e).state
  {
    assert (events + [e])[..|events|] == events;
  }

  const ASKER := Caller(0, Human, false)
  const ASKED := Caller(1, Human, false)
  const PEOPLE: map<ActorId, ActorKind> := map[0 := Human, 1 := Human]
  const STAFF := Directory({0, 1}, map[], map[], {1}, [], [])

  /** A needinfo is open; its target asks back, and meanwhile a second one is asked of the same person. */
  lemma AskedTwice() returns (events: seq<Event>)
    ensures var s := Run(Init(PEOPLE), events);
      && |s.rows| == 2 && s.actors == PEOPLE && s.rows[0].needInfo && s.rows[0].state.InputRequired?
      && s.rows[0].target == 1 && s.rows[0].requester == 0 && s.rows[0].work == 7 && s.rows[0].createdAt == 0
      && OpenNeedInfo(s.rows[1], 1, 7) && s.rows[1].createdAt == 1
  {
    var s0 := Init(PEOPLE);
    var e1 := AskNeedInfo(None, ASKER, 1, 7, "?", STAFF, 0);
    var s1 := Apply(s0, e1).state;
    assert |s1.rows| == 1 && OpenNeedInfo(s1.rows[0], 1, 7);
    var e2 := HumanAnswer(0, ASKED, "?", "", AskBack);
    var s2 := Apply(s1, e2).state;
    assert s2.rows[0].state.InputRequired?;
    var e3 := AskNeedInfo(None, ASKER, 1, 7, "?", STAFF, 1);
    events := [e1] + [e2] + [e3];
    assert [] + [e1] == [e1];
    RunSnoc(s0, [], e1);
    RunSnoc(s0, [e1], e2);
    RunSnoc(s0, [e1] + [e2], e3);
  }

  /** A reachable ledger in which a needinfo was completed with no answering comment at all. */
  lemma NeedInfoCompletedUnanswered() returns (events: seq<Event>)
    ensures var s := Run(Init(PEOPLE), events);
      |s.rows| == 2 && s.rows[1].state.Completed? && s.rows[1].needInfo && s.rows[1].answer.None?
  {
    var asked := AskedTwice();
    var s := Run(Init(PEOPLE), asked);
    var e4 := Reply(0, ASKER, "!", "");
    var s4 := Apply(s, e4).state;
    assert OpenNeedInfo(s4.rows[0], 1, 7) && OpenNeedInfo(s4.rows[1], 1, 7);
    var e5 := CommentOnWork(1, 7, None);
    assert !EarliestOpen(s4.rows, 1, 7, 1);
    events := asked + [e4] + [e5];
    RunSnoc(Init(PEOPLE), asked, e4);
    RunSnoc(Init(PEOPLE), asked + [e4], e5);
  }

  const TEAM: map<ActorId, ActorKind> := map[0 := Human, 1 := Agent, 2 := Agent, 3 := Agent]

  /** A person asks agent 1 at instant 0. */
  lemma AgentAsked() returns (events: seq<Event>)
    ensures var s := Run(Init(TEAM), events);
      s.actors == TEAM && s.rows == [NewRow(1, 0, 7, 0, None, DEFAULT_REQUEST_DEADLINE_MS, false, 0)]
  {
    var e1 := CommentOnWork(0, 7, None);
    var s1 := Apply(Init(TEAM), e1).state;
    assert s1.rows == [] && |s1.comments| == 1;
    var e2 := Create(None, 1, 0, 7, 0, None, 0);
    events := [e1] + [e2];
    assert [] + [e1] == [e1];
    RunSnoc(Init(TEAM), [], e1);
    RunSnoc(Init(TEAM), [e1], e2);
  }

  /** Agent 1, asked by a person, delegates to agent 2 at instant 0. */
  lemma DelegatedOnce() returns (events: seq<Event>)
    ensures var s := Run(Init(TEAM), events);
      && s.actors == TEAM && |s.rows| == 2 && RootOf(s.rows, 0) == 0 && RootOf(s.rows, 1) == 0
      && s.rows[0].target == 1 && s.rows[0].requester == 0
      && s.rows[1].target == 2 && s.rows[1].requester == 1 && s.rows[1].work == 7 && s.rows[1].state.Submitted?
      && s.rows[1].hops == 1 && s.rows[1].chainDeadline == Some(CHAIN_TOTAL_MS) && s.rows[1].budget == Some(5)
  {
    var asked := AgentAsked();
    var s := Run(Init(TEAM), asked);
    var d := Delegation(1, Agent, 2, 7, "do", 5, None, true, true, true, true, true, Some(0));
    assert IsParent(s, 1, 7, Some(0)) && RefusedAtOnce(s, d).None? && RefusedByChain(s, d).None?;
    events := asked + [Delegate(d, 0)];
    RunSnoc(Init(TEAM), asked, Delegate(d, 0));
  }

  const LATE_DELEGATION := Delegation(2, Agent, 3, 7, "do", 5, None, true, true, true, true, true, Some(1))

  lemma LateDelegationGranted(s: Ledger)
    requires s.actors == TEAM && |s.rows| == 2 && RootOf(s.rows, 0) == 0 && RootOf(s.rows, 1) == 0
    requires s.rows[0].target == 1 && s.rows[0].requester == 0
    requires s.rows[1].target == 2 && s.rows[1].requester == 1 && s.rows[1].work == 7 && s.rows[1].state.Submitted?
    requires s.rows[1].hops == 1 && s.rows[1].chainDeadline == Some(CHAIN_TOTAL_MS) && s.rows[1].budget == Some(5)
    ensures DoDelegate(s, LATE_DELEGATION, CHAIN_TOTAL_MS).outcome.Delegated?
    ensures DelegationDeadline(s, LATE_DELEGATION.parent, CHAIN_TOTAL_MS) == CHAIN_TOTAL_MS
  {
    var d := LATE_DELEGATION;
    assert IsParent(s, 2, 7, Some(1));
    assert RefusedAtOnce(s, d).None?;
    assert !InDelegationChain(s, 0, 3);
    assert RefusedByChain(s, d).None?;
  }

  lemma LateDelegationOverdue(s: Ledger)
    requires Inv(s) && DoDelegate(s, LATE_DELEGATION, CHAIN_TOTAL_MS).outcome.Delegated?
    requires DelegationDeadline(s, LATE_DELEGATION.parent, CHAIN_TOTAL_MS) == CHAIN_TOTAL_MS
    ensures var step := Apply(s, Delegate(LATE_DELEGATION, CHAIN_TOTAL_MS));
      step.outcome.Delegated? && Overdue(step.state, |s.rows|, CHAIN_TOTAL_MS)
  {
    DelegationLiveIff(s, LATE_DELEGATION, CHAIN_TOTAL_MS);
  }

  /** A reachable ledger in which a delegation is granted that a sweep at the same instant would fail. */
  lemma DelegationBornOverdue() returns (events: seq<Event>, s: Ledger)
    ensures s == Run(Init(TEAM), events)
    ensures var step := Apply(s, Delegate(LATE_DELEGATION, CHAIN_TOTAL_MS));
      step.outcome.Delegated? && Overdue(step.state, |s.rows|, CHAIN_TOTAL_MS)
  {
    events := DelegatedOnce();
    s := Run(Init(TEAM), events);
    InitOk(TEAM);
    RunKeeps(Init(TEAM), events);
    LateDelegationGranted(s);
    LateDelegationOverdue(s);
  }
}
