/** What every step of the request ledger keeps. */
module RequestInvariants {
  import opened Wrappers
  import opened RequestStates
  import opened RequestModel

  // ------------------------------------------------------------- invariants

  /** A waiting request is unclaimed; a WORKING one is held by its target, with a token and a lease. */
  ghost predicate ClaimShape(r: Row) {
    && (r.claimedBy.Some? <==> r.tokenHash.Some?)
    && (r.claimedBy.Some? <==> r.leaseUntil.Some?)
    && (r.state.Submitted? || r.state.InputRequired? ==> r.claimedBy.None?)
    && (r.state.Working? ==> r.claimedBy == Some(r.target))
  }

  /** The stored token is the one minted for this request's current generation. */
  ghost predicate TokenCurrent(s: Ledger, i: RequestId)
    requires i < |s.rows|
  {
    var h := s.rows[i].tokenHash;
    h.Some? ==> h.value.preimage < |s.minted| && s.minted[h.value.preimage] == Mint(i, s.rows[i].generation)
  }

  ghost predicate AnsweredInThread(s: Ledger, r: Row) {
    && r.answer.Some? && r.answer.value < |s.comments|
    && s.comments[r.answer.value].parent == Some(r.thread)
    && s.comments[r.answer.value].work == r.work
  }

  ghost predicate RowOk(s: Ledger, i: RequestId)
    requires i < |s.rows|
  {
    var r := s.rows[i];
    && r.target in s.actors && r.requester in s.actors
    && ClaimShape(r) && TokenCurrent(s, i)
    && (r.state.Completed? && !r.needInfo ==> AnsweredInThread(s, r))
  }

  ghost predicate RowsOk(s: Ledger) {
    forall i :: 0 <= i < |s.rows| ==> RowOk(s, i)
  }

  /** No token is of a later generation than its request, and no two share a request and a generation. */
  ghost predicate MintsOk(s: Ledger) {
    && (forall t :: 0 <= t < |s.minted| ==>
          s.minted[t].id < |s.rows| && 1 <= s.minted[t].generation <= s.rows[s.minted[t].id].generation)
    && (forall t, u :: 0 <= t < u < |s.minted| && s.minted[t].id == s.minted[u].id ==>
          s.minted[t].generation < s.minted[u].generation)
  }

  ghost predicate InFlightOk(s: Ledger) {
    forall k :: k in s.inFlight ==>
      var read := s.inFlight[k];
      read.id < |s.rows| && read.work == s.rows[read.id].work && read.thread == s.rows[read.id].thread
  }

  /** Chains are flat: the root of a root is itself, and a root comes first. */
  ghost predicate RootsOk(rows: seq<Row>) {
    forall i :: 0 <= i < |rows| ==> RootOf(rows, i) <= i && RootOf(rows, RootOf(rows, i)) == RootOf(rows, i)
  }

  /** No actor is asked twice in one chain. */
  ghost predicate TargetsDistinct(rows: seq<Row>) {
    forall i, j :: 0 <= i < j < |rows| && RootOf(rows, i) == RootOf(rows, j) ==> rows[i].target != rows[j].target
  }

  /** What holds of a request that another was handed off to. */
  ghost predicate HandOffOk(s: Ledger, i: RequestId)
    requires i < |s.rows| && s.rows[i].handedOffFrom.Some?
    requires s.rows[i].target in s.actors
  {
    var r := s.rows[i];
    var origin := r.handedOffFrom.value;
    && origin < i && s.rows[origin].state.Failed? && RootOf(s.rows, origin) == RootOf(s.rows, i)
    && r.key == Some(HandOffKey(origin))
    && r.chainDeadline.Some? && r.createdAt < r.deadline
    && r.deadline == (if s.actors[r.target].Human? then r.createdAt + HANDOFF_DEADLINE_MS
                      else Min(r.createdAt + HANDOFF_DEADLINE_MS, r.chainDeadline.value))
  }

  ghost predicate ChainRowOk(s: Ledger, i: RequestId)
    requires i < |s.rows|
  {
    var r := s.rows[i];
    r.target in s.actors
    && (r.hops >= MAX_HANDOFF_HOPS ==> s.actors[r.target].Human?)
    && (r.handedOffFrom.Some? ==> HandOffOk(s, i))
    && (r.key.Some? && r.key.value.HandOffKey? ==> r.handedOffFrom == Some(r.key.value.origin))
    && (r.key.Some? && r.key.value.IntakeKey? ==>
          s.actors[r.target].Agent? && (r.root.None? || r.root == Some(i)))
  }

  ghost predicate KeysUnique(rows: seq<Row>) {
    forall i, j :: 0 <= i < j < |rows| && rows[i].key.Some? ==> rows[i].key != rows[j].key
  }

  ghost predicate ChainsOk(s: Ledger) {
    && RootsOk(s.rows) && TargetsDistinct(s.rows) && KeysUnique(s.rows)
    && forall i :: 0 <= i < |s.rows| ==> ChainRowOk(s, i)
  }

  ghost predicate Inv(s: Ledger) {
    RowsOk(s) && MintsOk(s) && InFlightOk(s) && ChainsOk(s)
  }

  // -------------------------------------------------------------- evolution

  /** What a row may become: identity fixed, generation never lower, a terminal row frozen. */
  ghost predicate RowEvolves(r: Row, r': Row) {
    && r'.target == r.target && r'.requester == r.requester && r'.work == r.work && r'.thread == r.thread
    && r'.key == r.key && r'.createdAt == r.createdAt && r'.deadline == r.deadline
    && r'.needInfo == r.needInfo && r'.handedOffFrom == r.handedOffFrom
    && r.generation <= r'.generation
    && (IsTerminal(r.state) ==>
          && r'.state == r.state && r'.answer == r.answer && r'.generation == r.generation
          && r'.claimedBy == r.claimedBy && r'.tokenHash == r.tokenHash && r'.leaseUntil == r.leaseUntil)
  }

  ghost predicate Evolves(s: Ledger, s': Ledger) {
    && s'.actors == s.actors && |s.rows| <= |s'.rows|
    && s.minted <= s'.minted && s.comments <= s'.comments
    && forall i :: 0 <= i < |s.rows| ==>
         RowEvolves(s.rows[i], s'.rows[i]) && RootOf(s'.rows, i) == RootOf(s.rows, i)
  }

  lemma EvolvesTransitive(a: Ledger, b: Ledger, c: Ledger)
    requires Evolves(a, b) && Evolves(b, c)
    ensures Evolves(a, c)
  {
    forall i | 0 <= i < |a.rows|
      ensures RowEvolves(a.rows[i], c.rows[i]) && RootOf(c.rows, i) == RootOf(a.rows, i)
    {
      assert RowEvolves(a.rows[i], b.rows[i]) && RowEvolves(b.rows[i], c.rows[i]);
      assert RootOf(c.rows, i) == RootOf(b.rows, i);
    }
  }

  // ---------------------------------------------------- the two update shapes

  /** One row replaced, with at most one token minted for it. */
  ghost predicate ReplacesRow(s: Ledger, s': Ledger, i: RequestId, r': Row) {
    && i < |s.rows| && s'.rows == s.rows[i := r'] && s'.actors == s.actors
    && s.comments <= s'.comments
    && (s'.minted == s.minted
        || (s'.minted == s.minted + [Mint(i, r'.generation)] && r'.generation == s.rows[i].generation + 1))
    && (forall k :: k in s'.inFlight ==> k in s.inFlight && s'.inFlight[k] == s.inFlight[k])
    && RowEvolves(s.rows[i], r') && r'.root.GetOr(i) == RootOf(s.rows, i)
    && (r'.hops <= s.rows[i].hops) && (s.rows[i].handedOffFrom.Some? ==> r'.chainDeadline == s.rows[i].chainDeadline)
  }

  lemma ReplaceKeepsRows(s: Ledger, s': Ledger, i: RequestId, r': Row)
    requires Inv(s) && ReplacesRow(s, s', i, r') && RowOk(s', i)
    ensures RowsOk(s') && MintsOk(s') && InFlightOk(s')
  {
    forall j | 0 <= j < |s'.rows|
      ensures RowOk(s', j)
    {
      if j != i {
        assert RowOk(s, j) && s'.rows[j] == s.rows[j];
      }
    }
    forall t | 0 <= t < |s'.minted|
      ensures s'.minted[t].id < |s'.rows| && 1 <= s'.minted[t].generation <= s'.rows[s'.minted[t].id].generation
    {
      if t < |s.minted| {
        assert s'.minted[t] == s.minted[t];
      }
    }
  }

  lemma ReplaceKeepsChains(s: Ledger, s': Ledger, i: RequestId, r': Row)
    requires Inv(s) && ReplacesRow(s, s', i, r')
    requires s.rows[i].key.Some? && s.rows[i].key.value.IntakeKey? ==> r'.root.None? || r'.root == Some(i)
    ensures ChainsOk(s') && Evolves(s, s')
  {
    forall j | 0 <= j < |s.rows|
      ensures RootOf(s'.rows, j) == RootOf(s.rows, j) && RowEvolves(s.rows[j], s'.rows[j])
    {
    }
    assert RootsOk(s'.rows);
    assert TargetsDistinct(s'.rows);
    forall j | 0 <= j < |s'.rows|
      ensures ChainRowOk(s', j)
    {
      assert ChainRowOk(s, j);
    }
  }

  lemma ReplaceKeeps(s: Ledger, s': Ledger, i: RequestId, r': Row)
    requires Inv(s) && ReplacesRow(s, s', i, r') && RowOk(s', i)
    requires s.rows[i].key.Some? && s.rows[i].key.value.IntakeKey? ==> r'.root.None? || r'.root == Some(i)
    ensures Inv(s') && Evolves(s, s')
  {
    ReplaceKeepsRows(s, s', i, r');
    ReplaceKeepsChains(s, s', i, r');
  }

  /** One fresh unclaimed row appended; nothing else moves. */
  ghost predicate AppendsRow(s: Ledger, s': Ledger, r: Row) {
    && s'.rows == s.rows + [r] && s'.actors == s.actors && s'.minted == s.minted && s'.inFlight == s.inFlight
    && s.comments <= s'.comments
    && r.state.Submitted? && r.claimedBy.None? && r.tokenHash.None? && r.leaseUntil.None?
    && r.target in s.actors && r.requester in s.actors
  }

  /** The new row heads a chain of its own, or joins one whose targets do not include its own. */
  ghost predicate JoinsChain(s: Ledger, r: Row) {
    var root := r.root.GetOr(|s.rows|);
    && (root == |s.rows| || (root < |s.rows| && RootOf(s.rows, root) == root))
    && forall i :: 0 <= i < |s.rows| && RootOf(s.rows, i) == root ==> s.rows[i].target != r.target
  }

  lemma AppendKeeps(s: Ledger, s': Ledger, r: Row)
    requires Inv(s) && AppendsRow(s, s', r) && JoinsChain(s, r) && !KeyUsed(s, r.key)
    requires ChainRowOk(s', |s.rows|)
    ensures Inv(s') && Evolves(s, s')
  {
    var n := |s.rows|;
    forall j | 0 <= j < n
      ensures RowOk(s', j) && RootOf(s'.rows, j) == RootOf(s.rows, j) && RowEvolves(s.rows[j], s'.rows[j])
    {
      assert RowOk(s, j) && s'.rows[j] == s.rows[j];
    }
    forall j | 0 <= j < |s'.rows|
      ensures ChainRowOk(s', j)
    {
      if j < n {
        assert ChainRowOk(s, j) && s'.rows[j] == s.rows[j];
      }
    }
    assert RowOk(s', n);
    AppendKeepsChains(s.rows, r);
  }

  lemma AppendKeepsChains(rows: seq<Row>, r: Row)
    requires RootsOk(rows) && TargetsDistinct(rows) && KeysUnique(rows)
    requires var root := r.root.GetOr(|rows|);
      && (root == |rows| || (root < |rows| && RootOf(rows, root) == root))
      && forall i :: 0 <= i < |rows| && RootOf(rows, i) == root ==> rows[i].target != r.target
    requires r.key.Some? ==> forall i :: 0 <= i < |rows| ==> rows[i].key != r.key
    ensures RootsOk(rows + [r]) && TargetsDistinct(rows + [r]) && KeysUnique(rows + [r])
  {
    var rows' := rows + [r];
    forall i | 0 <= i < |rows|
      ensures RootOf(rows', i) == RootOf(rows, i)
    {
      assert rows'[i] == rows[i];
    }
    assert rows'[|rows|] == r;
  }

  // ----------------------------------------------------------- chain membership

  lemma ChainMembership(rows: seq<Row>, root: RequestId, i: RequestId)
    requires RootsOk(rows) && root < |rows| && RootOf(rows, root) == root && i < |rows|
    ensures InChain(rows, root, i) <==> RootOf(rows, i) == root
  {
  }

  lemma RootIsRoot(rows: seq<Row>, i: RequestId)
    requires RootsOk(rows) && i < |rows|
    ensures RootOf(rows, i) < |rows| && RootOf(rows, RootOf(rows, i)) == RootOf(rows, i)
  {
  }

  // -------------------------------------------------------------- step by step

  /** A row appended as the head of a chain of its own. */
  lemma NewChainKeeps(s: Ledger, s': Ledger, row: Row)
    requires Inv(s) && AppendsRow(s, s', row) && !KeyUsed(s, row.key)
    requires row.root.None? && row.hops == 0 && row.handedOffFrom.None? && (row.key.Some? ==> !row.key.value.HandOffKey?)
    requires row.key.Some? && row.key.value.IntakeKey? ==> s.actors[row.target].Agent?
    ensures Inv(s') && Evolves(s, s')
  {
    AppendKeeps(s, s', row);
  }

  lemma CreateKeeps(s: Ledger, row: Row)
    requires Inv(s) && row.state.Submitted? && row.claimedBy.None? && row.tokenHash.None? && row.leaseUntil.None?
    requires row.root.None? && row.hops == 0 && row.handedOffFrom.None?
    requires row.key.Some? ==> !row.key.value.HandOffKey?
    requires row.key.Some? && row.key.value.IntakeKey? && row.target in s.actors ==> s.actors[row.target].Agent?
    ensures Inv(DoCreate(s, row).state) && Evolves(s, DoCreate(s, row).state)
  {
    var s' := DoCreate(s, row).state;
    if s' != s {
      NewChainKeeps(s, s', row);
    }
  }

  lemma NeedInfoAppends(s: Ledger, key: Option<string>, who: Caller, target: ActorId, work: WorkId,
                        question: string, dir: Directory, now: Time, step: Step)
    requires step == DoAskNeedInfo(s, key, who, target, work, question, dir, now)
    ensures step.state == s || (
      && |step.state.rows| == |s.rows| + 1
      && var row := step.state.rows[|s.rows|];
      && AppendsRow(s, step.state, row) && !KeyUsed(s, row.key) && row.root.None? && row.hops == 0 && row.handedOffFrom.None?
      && (row.key.Some? ==> row.key.value.CallerKey?))
  {
  }

  lemma AskNeedInfoKeeps(s: Ledger, key: Option<string>, who: Caller, target: ActorId, work: WorkId,
                        question: string, dir: Directory, now: Time, step: Step)
    requires Inv(s) && step == DoAskNeedInfo(s, key, who, target, work, question, dir, now)
    ensures Inv(step.state) && Evolves(s, step.state)
  {
    NeedInfoAppends(s, key, who, target, work, question, dir, now, step);
    if step.state == s {
      SameRowsKeep(s, step.state);
    } else {
      NewChainKeeps(s, step.state, step.state.rows[|s.rows|]);
    }
  }

  lemma ClaimKeeps(s: Ledger, id: RequestId, actor: ActorId, presented: Option<Token>, leaseMs: Option<int>, now: Time)
    requires Inv(s)
    ensures var s' := DoClaim(s, id, actor, presented, leaseMs, now).state; Inv(s') && Evolves(s, s')
  {
    var step := DoClaim(s, id, actor, presented, leaseMs, now);
    if step.outcome.Renewed? || step.outcome.Taken? {
      assert RowOk(s, id) && ChainRowOk(s, id);
      ReplaceKeeps(s, step.state, id, step.state.rows[id]);
    }
  }

  lemma ReadKeeps(s: Ledger, session: SessionId, id: RequestId, actor: ActorId, token: Token, body: string, now: Time)
    requires Inv(s)
    ensures var s' := DoRead(s, session, id, actor, token, body, now).state; Inv(s') && Evolves(s, s')
  {
    var s' := DoRead(s, session, id, actor, token, body, now).state;
    assert s'.rows == s.rows && s'.minted == s.minted && s'.comments == s.comments;
    SameRowsKeep(s, s');
  }

  lemma SameRowsKeep(s: Ledger, s': Ledger)
    requires Inv(s) && s'.rows == s.rows && s'.minted == s.minted && s.comments <= s'.comments && s'.actors == s.actors
    requires InFlightOk(s')
    ensures Inv(s') && Evolves(s, s')
  {
    forall i | 0 <= i < |s.rows|
      ensures RowOk(s', i) && ChainRowOk(s', i)
    {
      assert RowOk(s, i) && ChainRowOk(s, i);
    }
  }

  lemma CommitKeeps(s: Ledger, session: SessionId, v: Verdict)
    requires Inv(s)
    ensures var s' := DoCommit(s, session, v).state; Inv(s') && Evolves(s, s')
  {
    var step := DoCommit(s, session, v);
    if step.outcome.Answered? {
      var id := step.outcome.id;
      assert RowOk(s, id) && ChainRowOk(s, id);
      ReplaceKeeps(s, step.state, id, step.state.rows[id]);
    } else {
      SameRowsKeep(s, step.state);
    }
  }

  lemma HumanAnswerKeeps(s: Ledger, id: RequestId, who: Caller, body: string, reason: string, v: Verdict)
    requires Inv(s)
    ensures var s' := DoHumanAnswer(s, id, who, body, reason, v).state; Inv(s') && Evolves(s, s')
  {
    var step := DoHumanAnswer(s, id, who, body, reason, v);
    if step.outcome.Answered? {
      assert RowOk(s, id) && ChainRowOk(s, id);
      ReplaceKeeps(s, step.state, id, step.state.rows[id]);
    }
  }

  lemma CancelKeeps(s: Ledger, id: RequestId)
    requires Inv(s)
    ensures Inv(DoCancel(s, id).state) && Evolves(s, DoCancel(s, id).state)
  {
    var step := DoCancel(s, id);
    if step.outcome.Moved? {
      assert RowOk(s, id) && ChainRowOk(s, id);
      ReplaceKeeps(s, step.state, id, step.state.rows[id]);
    }
  }

  lemma ReplyKeeps(s: Ledger, id: RequestId, who: Caller, body: string, reason: string)
    requires Inv(s)
    ensures var s' := DoReply(s, id, who, body, reason).state; Inv(s') && Evolves(s, s')
  {
    var step := DoReply(s, id, who, body, reason);
    if step.outcome.Moved? {
      assert RowOk(s, id) && ChainRowOk(s, id);
      ReplaceKeeps(s, step.state, id, step.state.rows[id]);
    }
  }

  lemma WithdrawKeeps(s: Ledger, id: RequestId, who: Caller, reason: string)
    requires Inv(s)
    ensures var s' := DoWithdraw(s, id, who, reason).state; Inv(s') && Evolves(s, s')
  {
    var step := DoWithdraw(s, id, who, reason);
    if step.outcome.Moved? {
      assert RowOk(s, id) && ChainRowOk(s, id);
      ReplaceKeeps(s, step.state, id, step.state.rows[id]);
    }
  }

  /** The rows after a comment: those of the author's open needinfos settled, the rest as they were. */
  ghost predicate SettlesRows(s: Ledger, s': Ledger, author: ActorId, work: WorkId) {
    && |s'.rows| == |s.rows| && s'.actors == s.actors && s'.minted == s.minted && s'.inFlight == s.inFlight
    && s.comments <= s'.comments
    && forall i :: 0 <= i < |s.rows| ==> s'.rows[i] == SettledByComment(s.rows, author, work, |s.comments|, i)
  }

  lemma SettledRowKeeps(s: Ledger, s': Ledger, author: ActorId, work: WorkId, i: RequestId)
    requires Inv(s) && SettlesRows(s, s', author, work) && i < |s.rows|
    ensures RowOk(s', i) && RowEvolves(s.rows[i], s'.rows[i]) && RootOf(s'.rows, i) == RootOf(s.rows, i)
    ensures s'.rows[i].generation == s.rows[i].generation
  {
    assert RowOk(s, i);
  }

  lemma SettledChainKeeps(s: Ledger, s': Ledger, author: ActorId, work: WorkId, i: RequestId)
    requires Inv(s) && SettlesRows(s, s', author, work) && i < |s.rows|
    requires RootOf(s'.rows, i) == RootOf(s.rows, i)
    ensures ChainRowOk(s', i)
  {
    assert ChainRowOk(s, i);
    if s.rows[i].handedOffFrom.Some? {
      SettledRowKeeps(s, s', author, work, s.rows[i].handedOffFrom.value);
    }
  }

  lemma CommentKeeps(s: Ledger, author: ActorId, work: WorkId, parent: Option<CommentId>)
    requires Inv(s)
    ensures var s' := DoComment(s, author, work, parent).state; Inv(s') && Evolves(s, s')
  {
    var step := DoComment(s, author, work, parent);
    if step.outcome.Commented? {
      SettlingKeeps(s, step.state, author, work);
    }
  }

  lemma SettlingKeeps(s: Ledger, s': Ledger, author: ActorId, work: WorkId)
    requires Inv(s) && SettlesRows(s, s', author, work)
    ensures Inv(s') && Evolves(s, s')
  {
    forall i | 0 <= i < |s.rows|
      ensures RowOk(s', i) && RowEvolves(s.rows[i], s'.rows[i]) && RootOf(s'.rows, i) == RootOf(s.rows, i)
      ensures s'.rows[i].generation == s.rows[i].generation
    {
      SettledRowKeeps(s, s', author, work, i);
    }
    forall i | 0 <= i < |s'.rows|
      ensures ChainRowOk(s', i)
    {
      SettledChainKeeps(s, s', author, work, i);
    }
    assert RootsOk(s'.rows) && TargetsDistinct(s'.rows) && KeysUnique(s'.rows);
  }

  // ---------------------------------------------------------------- hand-offs

  /** The pick of a hand-off is a known, eligible candidate, and no earlier candidate was eligible. */
  lemma {:induction false} FirstEligibleIsFirst(q: Search, cs: seq<Candidate>)
    ensures match FirstEligible(q, cs)
      case Some(c) =>
        exists k :: 0 <= k < |cs| && cs[k] == c && Judge(q, c.actor).Eligible?
                    && forall j :: 0 <= j < k ==> !Judge(q, cs[j].actor).Eligible?
      case None => forall j :: 0 <= j < |cs| ==> !Judge(q, cs[j].actor).Eligible?
  {
    if cs != [] && !Judge(q, cs[0].actor).Eligible? {
      FirstEligibleIsFirst(q, cs[1..]);
      var rest := FirstEligible(q, cs[1..]);
      if rest.Some? {
        var k :| 0 <= k < |cs[1..]| && cs[1..][k] == rest.value && Judge(q, rest.value.actor).Eligible?
                 && forall j :: 0 <= j < k ==> !Judge(q, cs[1..][j].actor).Eligible?;
        assert cs[k + 1] == rest.value;
        forall j | 0 <= j < k + 1
          ensures !Judge(q, cs[j].actor).Eligible?
        {
          if j > 0 {
            assert cs[1..][j - 1] == cs[j];
          }
        }
      }
    } else if cs != [] {
      assert cs[0] == FirstEligible(q, cs).value;
    }
  }

  lemma SuccessorIsNew(s: Ledger, id: RequestId, dir: Directory, now: Time)
    requires Inv(s) && id < |s.rows|
    requires SuccessorOf(s, id, dir, now).Some?
    ensures var a := SuccessorOf(s, id, dir, now).value.actor;
      && a in s.actors
      && (s.rows[id].hops + 1 >= MAX_HANDOFF_HOPS || now >= ChainDeadline(s.rows[id]) ==> s.actors[a].Human?)
      && forall i :: 0 <= i < |s.rows| && RootOf(s.rows, i) == RootOf(s.rows, id) ==> s.rows[i].target != a
  {
    var q := HandOffSearch(s, id, dir, now);
    FirstEligibleIsFirst(q, Candidates(q, s.rows[id].target));
    var a := SuccessorOf(s, id, dir, now).value.actor;
    assert Judge(q, a).Eligible?;
    RootIsRoot(s.rows, id);
    var root := RootOf(s.rows, id);
    forall i | 0 <= i < |s.rows| && RootOf(s.rows, i) == root
      ensures s.rows[i].target != a
    {
      ChainMembership(s.rows, root, i);
      assert s.rows[i].target in Visited(s.rows, root);
    }
  }

  /** An overdue request was never handed off before: the key its hand-off needs is free. */
  lemma HandOffKeyFree(s: Ledger, id: RequestId)
    requires Inv(s) && id < |s.rows| && !s.rows[id].state.Failed?
    ensures !KeyUsed(s, Some(HandOffKey(id)))
  {
    forall i | 0 <= i < |s.rows|
      ensures s.rows[i].key != Some(HandOffKey(id))
    {
      assert ChainRowOk(s, i);
    }
  }

  ghost function FailedRow(s: Ledger, id: RequestId): Row
    requires id < |s.rows|
  {
    var r := s.rows[id];
    if r.needInfo then r.(state := Failed) else r.(state := Failed, root := Some(RootOf(s.rows, id)))
  }

  /** What an expiry does: the notice and the failed row, then perhaps the next request. */
  lemma ExpiryParts(s: Ledger, id: RequestId, sweeper: ActorId, dir: Directory, now: Time, step: Step) returns (mid: Ledger)
    requires step == DoExpire(s, id, sweeper, dir, now) && step.outcome.Expired?
    ensures id < |s.rows| && IsClaimable(s.rows[id].state) && mid.rows == s.rows[id := FailedRow(s, id)]
    ensures s.comments <= mid.comments && mid.actors == s.actors && mid.minted == s.minted && mid.inFlight == s.inFlight
    ensures step.outcome.next.None? ==> step.state == mid
    ensures step.outcome.next.Some? ==>
      && SuccessorOf(s, id, dir, now).Some? && SuccessorOf(s, id, dir, now).value.actor in s.actors
      && var a := SuccessorOf(s, id, dir, now).value.actor;
         step.state == mid.(rows := mid.rows + [HandedOffRow(s.rows[id], id, RootOf(s.rows, id), a, s.actors[a], now)])
  {
    mid := step.state.(rows := s.rows[id := FailedRow(s, id)]);
  }

  lemma ExpireKeeps(s: Ledger, id: RequestId, sweeper: ActorId, dir: Directory, now: Time)
    requires Inv(s)
    ensures var s' := DoExpire(s, id, sweeper, dir, now).state; Inv(s') && Evolves(s, s')
  {
    var step := DoExpire(s, id, sweeper, dir, now);
    if step.outcome.Expired? {
      ExpiredKeeps(s, id, sweeper, dir, now, step);
    }
  }

  lemma ExpiredKeeps(s: Ledger, id: RequestId, sweeper: ActorId, dir: Directory, now: Time, step: Step)
    requires Inv(s) && step == DoExpire(s, id, sweeper, dir, now) && step.outcome.Expired?
    ensures Inv(step.state) && Evolves(s, step.state)
  {
    var mid := ExpiryParts(s, id, sweeper, dir, now, step);
    FailedKeeps(s, mid, id, FailedRow(s, id));
    if step.outcome.next.Some? {
      OpenNextKeeps(s, mid, step.state, id, dir, now);
      EvolvesTransitive(s, mid, step.state);
    }
  }

  lemma FailedKeeps(s: Ledger, mid: Ledger, id: RequestId, failed: Row)
    requires Inv(s) && id < |s.rows| && IsClaimable(s.rows[id].state)
    requires failed == s.rows[id].(state := Failed) || failed == s.rows[id].(state := Failed, root := Some(RootOf(s.rows, id)))
    requires mid.rows == s.rows[id := failed] && s.comments <= mid.comments
    requires mid.actors == s.actors && mid.minted == s.minted && mid.inFlight == s.inFlight
    ensures Inv(mid) && Evolves(s, mid)
  {
    assert RowOk(s, id) && ChainRowOk(s, id);
    ReplaceKeeps(s, mid, id, failed);
  }

  lemma OpenNextKeeps(s: Ledger, mid: Ledger, s': Ledger, id: RequestId, dir: Directory, now: Time)
    requires Inv(s) && Inv(mid) && Evolves(s, mid) && |mid.rows| == |s.rows| && id < |s.rows|
    requires IsClaimable(s.rows[id].state) && mid.rows[id].state.Failed?
    requires SuccessorOf(s, id, dir, now).Some? && SuccessorOf(s, id, dir, now).value.actor in s.actors
    requires var a := SuccessorOf(s, id, dir, now).value.actor;
      s' == mid.(rows := mid.rows + [HandedOffRow(s.rows[id], id, RootOf(s.rows, id), a, s.actors[a], now)])
    ensures Inv(s') && Evolves(mid, s')
  {
    HandOffJoins(s, id, mid, dir, now);
    var next := s'.rows[|s.rows|];
    assert RowOk(s, id);
    HandedOffRowOk(mid, s', s.rows[id], id, next, now);
    AppendKeeps(mid, s', next);
  }

  lemma HandOffJoins(s: Ledger, id: RequestId, mid: Ledger, dir: Directory, now: Time)
    requires Inv(s) && Inv(mid) && Evolves(s, mid) && |mid.rows| == |s.rows| && id < |s.rows|
    requires IsClaimable(s.rows[id].state)
    requires SuccessorOf(s, id, dir, now).Some?
    ensures var a := SuccessorOf(s, id, dir, now).value.actor;
      && a in s.actors
      && JoinsChain(mid, HandedOffRow(s.rows[id], id, RootOf(s.rows, id), a, s.actors[a], now))
      && !KeyUsed(mid, Some(HandOffKey(id)))
      && (s.rows[id].hops + 1 >= MAX_HANDOFF_HOPS || now >= ChainDeadline(s.rows[id]) ==> s.actors[a].Human?)
  {
    SuccessorIsNew(s, id, dir, now);
    HandOffKeyFree(s, id);
    var a := SuccessorOf(s, id, dir, now).value.actor;
    RootIsRoot(s.rows, id);
    forall i | 0 <= i < |mid.rows|
      ensures mid.rows[i].key == s.rows[i].key && mid.rows[i].target == s.rows[i].target
      ensures RootOf(mid.rows, i) == RootOf(s.rows, i)
    {
      assert RowEvolves(s.rows[i], mid.rows[i]);
    }
  }

  lemma HandedOffRowOk(mid: Ledger, s': Ledger, r: Row, id: RequestId, next: Row, now: Time)
    requires Inv(mid) && id < |mid.rows| && RowEvolves(r, mid.rows[id]) && mid.rows[id].state.Failed?
    requires s'.rows == mid.rows + [next] && s'.actors == mid.actors
    requires next.target in mid.actors
    requires next == HandedOffRow(r, id, RootOf(mid.rows, id), next.target, mid.actors[next.target], now)
    requires r.hops + 1 >= MAX_HANDOFF_HOPS || now >= ChainDeadline(r) ==> mid.actors[next.target].Human?
    ensures ChainRowOk(s', |mid.rows|)
  {
    RootIsRoot(mid.rows, id);
    assert s'.rows[id] == mid.rows[id] && s'.rows[|mid.rows|] == next;
  }

  // -------------------------------------------------------------- delegations

  /** What a granted delegation was checked for, and the ledger it leaves. */
  lemma DelegationGranted(s: Ledger, d: Delegation, now: Time)
    requires DoDelegate(s, d, now).outcome.Delegated?
    ensures d.parent.Some? ==> d.parent.value < |s.rows| && LiveFor(s.rows[d.parent.value], d.from, d.work)
    ensures d.parent.Some? ==> !InDelegationChain(s, RootOf(s.rows, d.parent.value), d.target)
    ensures d.from in s.actors && d.target in s.actors && s.actors[d.target].Agent?
    ensures !KeyUsed(s, CallerKeyOf(d.key)) && DelegationHops(s, d.parent) < MAX_HANDOFF_HOPS
    ensures var step := DoDelegate(s, d, now); var spend := step.outcome.share;
      && spend == Min(d.asked, Remaining(s, d)) && spend >= 1
      && step.state == s.(rows := Debited(s, d, spend) + [DelegatedRow(s, d, spend, now)],
                          comments := s.comments + [Comment(d.work, None, d.from)])
  {
  }

  lemma DelegateKeeps(s: Ledger, d: Delegation, now: Time)
    requires Inv(s)
    ensures Inv(DoDelegate(s, d, now).state) && Evolves(s, DoDelegate(s, d, now).state)
  {
    var step := DoDelegate(s, d, now);
    if step.outcome.Delegated? {
      DelegationGranted(s, d, now);
      GrantKeeps(s, step.state, d, step.outcome.share, now);
    }
  }

  lemma GrantKeeps(s: Ledger, s': Ledger, d: Delegation, spend: int, now: Time)
    requires Inv(s) && (d.parent.Some? ==> d.parent.value < |s.rows|)
    requires d.parent.Some? ==> !InDelegationChain(s, RootOf(s.rows, d.parent.value), d.target)
    requires d.from in s.actors && d.target in s.actors && s.actors[d.target].Agent?
    requires !KeyUsed(s, CallerKeyOf(d.key)) && DelegationHops(s, d.parent) < MAX_HANDOFF_HOPS
    requires s' == s.(rows := Debited(s, d, spend) + [DelegatedRow(s, d, spend, now)],
                      comments := s.comments + [Comment(d.work, None, d.from)])
    ensures Inv(s') && Evolves(s, s')
  {
    var mid := s'.(rows := Debited(s, d, spend));
    DebitKeeps(s, mid, d, spend);
    var next := DelegatedRow(s, d, spend, now);
    DelegationJoins(s, mid, d, spend, now);
    assert ChainRowOk(s', |mid.rows|) by {
      assert s'.rows[|mid.rows|] == next;
    }
    AppendKeeps(mid, s', next);
    EvolvesTransitive(s, mid, s');
  }

  lemma DebitKeeps(s: Ledger, mid: Ledger, d: Delegation, spend: int)
    requires Inv(s) && (d.parent.Some? ==> d.parent.value < |s.rows|)
    requires mid.rows == Debited(s, d, spend) && mid.actors == s.actors && mid.minted == s.minted
    requires s.comments <= mid.comments && mid.inFlight == s.inFlight
    ensures Inv(mid) && Evolves(s, mid)
  {
    if d.parent.Some? && s.rows[d.parent.value].budget.Some? {
      var p := d.parent.value;
      assert RowOk(s, p) && ChainRowOk(s, p);
      ReplaceKeeps(s, mid, p, mid.rows[p]);
    } else {
      SameRowsKeep(s, mid);
    }
  }

  lemma DelegationJoins(s: Ledger, mid: Ledger, d: Delegation, spend: int, now: Time)
    requires Inv(s) && Inv(mid) && Evolves(s, mid) && |mid.rows| == |s.rows|
    requires d.parent.Some? ==> d.parent.value < |s.rows|
    requires d.parent.Some? ==> !InDelegationChain(s, RootOf(s.rows, d.parent.value), d.target)
    requires !KeyUsed(s, CallerKeyOf(d.key))
    ensures JoinsChain(mid, DelegatedRow(s, d, spend, now)) && !KeyUsed(mid, CallerKeyOf(d.key))
  {
    forall i | 0 <= i < |mid.rows|
      ensures mid.rows[i].key == s.rows[i].key && mid.rows[i].target == s.rows[i].target
      ensures RootOf(mid.rows, i) == RootOf(s.rows, i)
    {
      assert RowEvolves(s.rows[i], mid.rows[i]);
    }
    if d.parent.Some? {
      var root := RootOf(s.rows, d.parent.value);
      RootIsRoot(s.rows, d.parent.value);
      forall i | 0 <= i < |s.rows| && RootOf(s.rows, i) == root
        ensures s.rows[i].target != d.target
      {
        ChainMembership(s.rows, root, i);
      }
    } else {
      assert forall i :: 0 <= i < |s.rows| ==> RootOf(s.rows, i) <= i;
    }
  }

  lemma DispatchCreateKeeps(s: Ledger, gate: ActorId, target: ActorId, work: WorkId, now: Time)
    requires Inv(s)
    ensures var s' := DoDispatchCreate(s, gate, target, work, now).state; Inv(s') && Evolves(s, s')
  {
    var commented := s.(comments := s.comments + [Comment(work, None, gate)]);
    SameRowsKeep(s, commented);
    if target in s.actors && s.actors[target].Agent? && gate in s.actors {
      var row := NewRow(target, gate, work, |s.comments|, Some(IntakeKey(work)), now + DEFAULT_REQUEST_DEADLINE_MS, false, now);
      CreateKeeps(commented, row);
      EvolvesTransitive(s, commented, DoCreate(commented, row).state);
    }
  }

  lemma DispatchLinkKeeps(s: Ledger, work: WorkId, now: Time)
    requires Inv(s)
    ensures var s' := DoDispatchLink(s, work, now).state; Inv(s') && Evolves(s, s')
  {
    var step := DoDispatchLink(s, work, now);
    if step.outcome.Moved? {
      var id := step.outcome.id;
      assert RowOk(s, id) && ChainRowOk(s, id);
      ReplaceKeeps(s, step.state, id, step.state.rows[id]);
    }
  }

  // ----------------------------------------------------------- every step, every run

  lemma ExecutionStepKeeps(s: Ledger, e: Event)
    requires Inv(s) && (e.Claim? || e.ReadForAnswer? || e.CommitAnswer? || e.Cancel?)
    ensures Inv(Apply(s, e).state) && Evolves(s, Apply(s, e).state)
  {
    match e
    case Claim(id, actor, presented, leaseMs, now) => ClaimKeeps(s, id, actor, presented, leaseMs, now);
    case ReadForAnswer(session, id, actor, token, body, now) => ReadKeeps(s, session, id, actor, token, body, now);
    case CommitAnswer(session, verdict) => CommitKeeps(s, session, verdict);
    case Cancel(id) => CancelKeeps(s, id);
  }

  lemma PersonStepKeeps(s: Ledger, e: Event)
    requires Inv(s) && (e.HumanAnswer? || e.Reply? || e.CommentOnWork? || e.Withdraw? || e.AskNeedInfo?)
    ensures Inv(Apply(s, e).state) && Evolves(s, Apply(s, e).state)
  {
    match e
    case HumanAnswer(id, who, body, reason, verdict) => HumanAnswerKeeps(s, id, who, body, reason, verdict);
    case Reply(id, who, body, reason) => ReplyKeeps(s, id, who, body, reason);
    case CommentOnWork(author, work, parent) => CommentKeeps(s, author, work, parent);
    case Withdraw(id, who, reason) => WithdrawKeeps(s, id, who, reason);
    case AskNeedInfo(key, who, target, work, question, dir, now) => AskNeedInfoKeeps(s, key, who, target, work, question, dir, now, Apply(s, e));
  }

  lemma ChainStepKeeps(s: Ledger, e: Event)
    requires Inv(s) && (e.Expire? || e.Delegate?)
    ensures Inv(Apply(s, e).state) && Evolves(s, Apply(s, e).state)
  {
    match e
    case Expire(id, sweeper, dir, now) => ExpireKeeps(s, id, sweeper, dir, now);
    case Delegate(d, now) => DelegateKeeps(s, d, now);
  }

  lemma DispatchStepKeeps(s: Ledger, e: Event)
    requires Inv(s) && (e.DispatchCreate? || e.DispatchLink?)
    ensures Inv(Apply(s, e).state) && Evolves(s, Apply(s, e).state)
  {
    match e
    case DispatchCreate(gate, target, work, now) => DispatchCreateKeeps(s, gate, target, work, now);
    case DispatchLink(work, now) => DispatchLinkKeeps(s, work, now);
  }

  lemma CreateStepKeeps(s: Ledger, e: Event)
    requires Inv(s) && e.Create?
    ensures Inv(Apply(s, e).state) && Evolves(s, Apply(s, e).state)
  {
    var row := NewRow(e.target, e.requester, e.work, e.thread, CallerKeyOf(e.key),
                      e.deadline.GetOr(e.now + DEFAULT_REQUEST_DEADLINE_MS), false, e.now);
    assert Apply(s, e) == DoCreate(s, row);
    CreateKeeps(s, row);
  }

  /** Every step of every session keeps the invariant and only evolves rows. */
  lemma StepKeeps(s: Ledger, e: Event)
    requires Inv(s)
    ensures Inv(Apply(s, e).state) && Evolves(s, Apply(s, e).state)
  {
    if e.Create? {
      CreateStepKeeps(s, e);
    } else if e.Claim? || e.ReadForAnswer? || e.CommitAnswer? || e.Cancel? {
      ExecutionStepKeeps(s, e);
    } else if e.Expire? || e.Delegate? {
      ChainStepKeeps(s, e);
    } else if e.DispatchCreate? || e.DispatchLink? {
      DispatchStepKeeps(s, e);
    } else {
      PersonStepKeeps(s, e);
    }
  }

  /** The invariant holds after every run, and a run only ever evolves the ledger. */
  lemma {:induction false} RunKeeps(s: Ledger, events: seq<Event>)
    requires Inv(s)
    ensures Inv(Run(s, events)) && Evolves(s, Run(s, events))
    decreases |events|
  {
    if events != [] {
      var before := Run(s, events[..|events| - 1]);
      RunKeeps(s, events[..|events| - 1]);
      StepKeeps(before, events[|events| - 1]);
      EvolvesTransitive(s, before, Run(s, events));
    }
  }

  lemma InitOk(actors: map<ActorId, ActorKind>)
    ensures Inv(Init(actors))
  {
    var s := Init(actors);
    assert s.rows == [] && s.minted == [] && s.inFlight == map[];
    assert RowsOk(s);
    assert MintsOk(s);
    assert InFlightOk(s);
    assert ChainsOk(s);
  }
}
