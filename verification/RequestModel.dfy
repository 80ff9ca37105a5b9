/** Request states and their A2A wire spelling (section 6.3, TaskState, of the A2A protocol, version 0.2). */
module RequestStates {
  import opened Wrappers

  datatype RequestState = Submitted | Working | InputRequired | Completed | Failed | Canceled

  predicate IsTerminal(s: RequestState) { s.Completed? || s.Failed? || s.Canceled? }

  predicate IsClaimable(s: RequestState) { s.Submitted? || s.Working? || s.InputRequired? }

  function ToWire(s: RequestState): string {
    match s
    case Submitted => "submitted"
    case Working => "working"
    case InputRequired => "input-required"
    case Completed => "completed"
    case Failed => "failed"
    case Canceled => "canceled"
  }

  function FromWire(w: string): Option<RequestState> {
    if w == "submitted" then Some(Submitted)
    else if w == "working" then Some(Working)
    else if w == "input-required" then Some(InputRequired)
    else if w == "completed" then Some(Completed)
    else if w == "failed" then Some(Failed)
    else if w == "canceled" then Some(Canceled)
    else None
  }

  /** The two tables invert each other, and a state is claimable exactly when it is not terminal. */
  lemma WireTablesInvert(s: RequestState, w: string)
    ensures FromWire(w) == Some(s) <==> w == ToWire(s)
    ensures IsClaimable(s) <==> !IsTerminal(s)
  {
    var first := ToWire(s)[0];
    assert ToWire(s)[0] == first;
    assert |ToWire(Completed)| == 9 && |ToWire(Canceled)| == 8;
  }
}

/**
 * The agent-request ledger as a state machine. A request, comment or token is
 * named by its position in the order of creation, so a new one is fresh.
 * Every operation carries its own reading of the clock; nothing below assumes
 * that those readings agree or advance.
 */
module RequestModel {
  import opened Wrappers
  import opened Text
  import opened RequestStates

  type ActorId = nat
  type RequestId = nat
  type CommentId = nat
  type WorkId = nat
  type SessionId = nat
  type Token = nat
  type Time = int

  const REQUEST_CLAIM_LEASE_MS := 60_000
  const DEFAULT_REQUEST_DEADLINE_MS := 24 * 60 * 60 * 1_000
  const NEEDINFO_DEADLINE_MS := 7 * 24 * 60 * 60 * 1_000
  const MAX_HANDOFF_HOPS := 3
  const CHAIN_TOTAL_MS := 72 * 60 * 60_000
  const HANDOFF_DEADLINE_MS := 24 * 60 * 60_000
  const DEFAULT_DISPATCH_BUDGET := 100
  const MAX_DELEGATED_BUDGET := 100_000
  const OWNER_CANDIDATES := 5

  datatype ActorKind = Human | Agent | Service

  // The digest of a claim token; distinct tokens have distinct digests.
  datatype TokenHash = Sha256(preimage: Token)

  // Caller-supplied, intake and hand-off keys live in separate name spaces.
  datatype Key = CallerKey(text: string) | IntakeKey(work: WorkId) | HandOffKey(origin: RequestId)

  datatype Row = Row(
    target: ActorId,
    requester: ActorId,
    work: WorkId,
    thread: CommentId,
    key: Option<Key>,
    createdAt: Time,
    deadline: Time,
    needInfo: bool,
    handedOffFrom: Option<RequestId>,
    state: RequestState,
    claimedBy: Option<ActorId>,
    tokenHash: Option<TokenHash>,
    leaseUntil: Option<Time>,
    generation: nat,
    answer: Option<CommentId>,
    root: Option<RequestId>,
    hops: nat,
    chainDeadline: Option<Time>,
    budget: Option<int>)

  datatype Comment = Comment(work: WorkId, parent: Option<CommentId>, author: ActorId)

  // Which request, and which generation of it, a token was minted for.
  datatype Mint = Mint(id: RequestId, generation: nat)

  // What an answering transaction has read before its compare-and-set.
  datatype Read = Read(id: RequestId, actor: ActorId, token: Token, work: WorkId, thread: CommentId)

  datatype Ledger = Ledger(
    actors: map<ActorId, ActorKind>,
    rows: seq<Row>,
    comments: seq<Comment>,
    minted: seq<Mint>,
    inFlight: map<SessionId, Read>)

  datatype Role = Viewer | Editor | Owner

  datatype Member = Member(user: ActorId, role: Role)

  datatype Credential = Credential(user: ActorId, revoked: bool, expiresAt: Option<Time>, mayAnswer: bool)

  // What the transaction reads about people and agents on the work's team.
  datatype Directory = Directory(
    active: set<ActorId>,
    successor: map<ActorId, ActorId>,
    owner: map<ActorId, ActorId>,
    admins: set<ActorId>,
    members: seq<Member>,
    credentials: seq<Credential>)

  datatype Verdict = AnswerCompleted | AnswerFailed | AskBack

  // A person acting from the web.
  datatype Caller = Caller(id: ActorId, kind: ActorKind, admin: bool)

  datatype Refusal =
    | NotFound | NotClaimable | Superseded | NotHeld | AlreadyTerminal | AwaitingReply
    | NotTarget | NotRequester | ReasonRequired | BodyRequired | NotInputRequired | NotOverdue
    | UniqueViolation | BadReference | AgentsOnly | BadBudget | NotCommitted | BadTarget
    | NoRoot | TooManyHops | ChainCycle | PolicyRefused | BudgetExhausted | AlreadyOpen | NotNeedInfo | KeyMismatch

  datatype Outcome =
    | Refused(why: Refusal)
    | Opened(id: RequestId)
    | Replayed(id: RequestId)
    | Renewed(id: RequestId, token: Token)
    | Taken(id: RequestId, token: Token, generation: nat)
    | ReadOk
    | Answered(id: RequestId, holder: Option<Token>, comment: CommentId)
    | Moved(id: RequestId)
    | Expired(id: RequestId, next: Option<RequestId>)
    | Delegated(id: RequestId, share: int)
    | Commented(comment: CommentId)

  datatype Step = Step(state: Ledger, outcome: Outcome)

  datatype Delegation = Delegation(
    from: ActorId, fromKind: ActorKind, target: ActorId, work: WorkId, body: string, asked: int, key: Option<string>,
    committed: bool, credentialed: bool, policyCommit: bool, policyAllows: bool, gateAuto: bool, parent: Option<RequestId>)

  datatype Event =
    | Create(key: Option<string>, target: ActorId, requester: ActorId, work: WorkId, thread: CommentId,
             deadline: Option<Time>, now: Time)
    | AskNeedInfo(key: Option<string>, who: Caller, target: ActorId, work: WorkId, question: string, dir: Directory, now: Time)
    | Claim(id: RequestId, actor: ActorId, presented: Option<Token>, leaseMs: Option<int>, now: Time)
    | ReadForAnswer(session: SessionId, id: RequestId, actor: ActorId, token: Token, body: string, now: Time)
    | CommitAnswer(session: SessionId, verdict: Verdict)
    | HumanAnswer(id: RequestId, who: Caller, body: string, reason: string, verdict: Verdict)
    | Cancel(id: RequestId)
    | Reply(id: RequestId, who: Caller, body: string, reason: string)
    | CommentOnWork(author: ActorId, work: WorkId, parent: Option<CommentId>)
    | Withdraw(id: RequestId, who: Caller, reason: string)
    | Expire(id: RequestId, sweeper: ActorId, dir: Directory, now: Time)
    | Delegate(d: Delegation, now: Time)
    | DispatchCreate(gate: ActorId, target: ActorId, work: WorkId, now: Time)
    | DispatchLink(work: WorkId, now: Time)

  // ---------------------------------------------------------------- chains

  /** The first request of the chain a request belongs to. */
  function RootOf(rows: seq<Row>, i: RequestId): RequestId
    requires i < |rows|
  {
    rows[i].root.GetOr(i)
  }

  /** chainOf: the root row and every row that names it. */
  predicate InChain(rows: seq<Row>, root: RequestId, i: RequestId)
    requires i < |rows|
  {
    i == root || rows[i].root == Some(root)
  }

  // -------------------------------------------------------------- creation

  predicate KeyUsed(s: Ledger, key: Option<Key>) {
    key.Some? && exists i :: 0 <= i < |s.rows| && s.rows[i].key == key
  }

  /** The row that carries a key already in use. */
  function KeyHolder(rows: seq<Row>, key: Option<Key>): (i: RequestId)
    requires exists i :: 0 <= i < |rows| && rows[i].key == key
    ensures i < |rows| && rows[i].key == key
  {
    if rows[|rows| - 1].key == key then |rows| - 1 else KeyHolder(rows[..|rows| - 1], key)
  }

  function NewRow(target: ActorId, requester: ActorId, work: WorkId, thread: CommentId, key: Option<Key>,
                  deadline: Time, needInfo: bool, now: Time): Row
  {
    Row(target, requester, work, thread, key, now, deadline, needInfo, None, Submitted,
        None, None, None, 0, None, None, 0, None, None)
  }

  predicate GoodReferences(s: Ledger, target: ActorId, requester: ActorId, thread: CommentId) {
    target in s.actors && requester in s.actors && thread < |s.comments|
  }

  function DoCreate(s: Ledger, row: Row): Step {
    if KeyUsed(s, row.key) then Step(s, Replayed(KeyHolder(s.rows, row.key)))
    else if !GoodReferences(s, row.target, row.requester, row.thread) then Step(s, Refused(BadReference))
    else Step(s.(rows := s.rows + [row]), Opened(|s.rows|))
  }

  function CallerKeyOf(key: Option<string>): Option<Key> {
    if key.Some? then Some(CallerKey(key.value)) else None
  }

  predicate OpenNeedInfo(r: Row, target: ActorId, work: WorkId) {
    r.needInfo && (r.state.Submitted? || r.state.Working?) && r.target == target && r.work == work
  }

  /** A key replays only the asker's own needinfo on the same work. */
  predicate SameNeedInfo(r: Row, who: Caller, work: WorkId) { r.needInfo && r.work == work && r.requester == who.id }

  function DoAskNeedInfo(s: Ledger, key: Option<string>, who: Caller, target: ActorId, work: WorkId,
                         question: string, dir: Directory, now: Time): Step
  {
    if Blank(question) then Step(s, Refused(BodyRequired))
    else if KeyUsed(s, CallerKeyOf(key)) then
      var id := KeyHolder(s.rows, CallerKeyOf(key));
      Step(s, if SameNeedInfo(s.rows[id], who, work) then Replayed(id) else Refused(KeyMismatch))
    else if target !in s.actors || who.id !in s.actors then Step(s, Refused(BadReference))
    else if target == who.id || s.actors[target].Service? then Step(s, Refused(BadTarget))
    else if !who.kind.Human? && !s.actors[target].Human? then Step(s, Refused(BadTarget))
    else if !CanAnswerOnTeam(s.actors[target], dir, target, now) then Step(s, Refused(BadTarget))
    else if exists i :: 0 <= i < |s.rows| && OpenNeedInfo(s.rows[i], target, work) then Step(s, Refused(AlreadyOpen))
    else
      var row := NewRow(target, who.id, work, |s.comments|, CallerKeyOf(key), now + NEEDINFO_DEADLINE_MS, true, now);
      Step(s.(rows := s.rows + [row], comments := s.comments + [Comment(work, None, who.id)]), Opened(|s.rows|))
  }

  // ------------------------------------------------------- claim and answer

  /** The holder may extend a lease that has not run out, by showing the token it was given. */
  predicate CanRenew(r: Row, actor: ActorId, token: Token, now: Time) {
    && r.target == actor && r.claimedBy == Some(actor) && r.tokenHash == Some(Sha256(token))
    && r.leaseUntil.Some? && r.leaseUntil.value > now && IsClaimable(r.state)
  }

  /** A target may take a request nobody holds, or whose holder let the lease run out. */
  predicate CanTake(r: Row, actor: ActorId, now: Time) {
    && r.target == actor && IsClaimable(r.state)
    && (r.claimedBy.None? || (r.leaseUntil.Some? && r.leaseUntil.value < now))
  }

  function TakeRow(r: Row, actor: ActorId, token: Token, expiresAt: Time): Row {
    r.(leaseUntil := Some(expiresAt), generation := r.generation + 1, tokenHash := Some(Sha256(token)),
       claimedBy := Some(actor), state := Working)
  }

  function DoClaim(s: Ledger, id: RequestId, actor: ActorId, presented: Option<Token>, leaseMs: Option<int>,
                   now: Time): Step
  {
    var expiresAt := now + leaseMs.GetOr(REQUEST_CLAIM_LEASE_MS);
    if id >= |s.rows| then Step(s, Refused(NotFound))
    else
      var r := s.rows[id];
      if presented.Some? && CanRenew(r, actor, presented.value, now) then
        Step(s.(rows := s.rows[id := r.(leaseUntil := Some(expiresAt))]), Renewed(id, presented.value))
      else if CanTake(r, actor, now) then
        var token := |s.minted|;
        Step(s.(rows := s.rows[id := TakeRow(r, actor, token, expiresAt)],
                minted := s.minted + [Mint(id, r.generation + 1)]),
             Taken(id, token, r.generation + 1))
      else if presented.Some? && r.claimedBy == Some(actor) then Step(s, Refused(Superseded))
      else Step(s, Refused(NotClaimable))
  }

  function DoRead(s: Ledger, session: SessionId, id: RequestId, actor: ActorId, token: Token, body: string,
                  now: Time): Step
  {
    if Blank(body) then Step(s, Refused(BodyRequired))
    else if id >= |s.rows| then Step(s, Refused(NotFound))
    else
      var r := s.rows[id];
      var sameActor := r.claimedBy == Some(actor);
      var sameExecution := sameActor && r.tokenHash == Some(Sha256(token));
      var leaseLive := r.leaseUntil.Some? && r.leaseUntil.value > now;
      if IsTerminal(r.state) then Step(s, Refused(AlreadyTerminal))
      else if sameActor && !sameExecution then Step(s, Refused(Superseded))
      else if !sameExecution || !leaseLive then Step(s, Refused(NotHeld))
      else Step(s.(inFlight := s.inFlight[session := Read(id, actor, token, r.work, r.thread)]), ReadOk)
  }

  function VerdictState(v: Verdict): RequestState {
    match v
    case AnswerCompleted => Completed
    case AnswerFailed => Failed
    case AskBack => InputRequired
  }

  function Unclaimed(r: Row): Row {
    r.(claimedBy := None, tokenHash := None, leaseUntil := None)
  }

  /** The second compare-and-set of an answer: whose claim it is now, not whose it was when read. */
  predicate StillHolds(r: Row, read: Read) {
    r.claimedBy == Some(read.actor) && r.tokenHash == Some(Sha256(read.token)) && IsClaimable(r.state)
  }

  function AnswerRow(r: Row, v: Verdict, comment: CommentId): Row {
    (if v.AskBack? then Unclaimed(r) else r).(answer := Some(comment), state := VerdictState(v))
  }

  function DoCommit(s: Ledger, session: SessionId, v: Verdict): Step {
    if session !in s.inFlight then Step(s, Refused(NotFound))
    else
      var read := s.inFlight[session];
      var rest := s.(inFlight := s.inFlight - {session});
      if read.id < |s.rows| && StillHolds(s.rows[read.id], read) then
        var c := |s.comments|;
        Step(rest.(rows := s.rows[read.id := AnswerRow(s.rows[read.id], v, c)],
                   comments := s.comments + [Comment(read.work, Some(read.thread), read.actor)]),
             Answered(read.id, Some(read.token), c))
      else Step(rest, Refused(NotHeld))
  }

  function DoHumanAnswer(s: Ledger, id: RequestId, who: Caller, body: string, reason: string, v: Verdict): Step {
    if Blank(body) then Step(s, Refused(BodyRequired))
    else if !who.kind.Human? then Step(s, Refused(NotTarget))
    else if id >= |s.rows| then Step(s, Refused(NotFound))
    else
      var r := s.rows[id];
      if IsTerminal(r.state) then Step(s, Refused(AlreadyTerminal))
      else if r.state.InputRequired? then Step(s, Refused(AwaitingReply))
      else if r.target != who.id && !who.admin then Step(s, Refused(NotTarget))
      else if r.target != who.id && Blank(reason) then Step(s, Refused(ReasonRequired))
      else
        var c := |s.comments|;
        Step(s.(rows := s.rows[id := Unclaimed(r).(answer := Some(c), state := VerdictState(v))],
                comments := s.comments + [Comment(r.work, Some(r.thread), who.id)]),
             Answered(id, None, c))
  }

  function DoCancel(s: Ledger, id: RequestId): Step {
    if id >= |s.rows| then Step(s, Refused(NotFound))
    else if !IsClaimable(s.rows[id].state) then Step(s, Refused(AlreadyTerminal))
    else Step(s.(rows := s.rows[id := s.rows[id].(state := Canceled)]), Moved(id))
  }

  function DoReply(s: Ledger, id: RequestId, who: Caller, body: string, reason: string): Step {
    if Blank(body) then Step(s, Refused(BodyRequired))
    else if !who.kind.Human? then Step(s, Refused(NotRequester))
    else if id >= |s.rows| then Step(s, Refused(NotFound))
    else
      var r := s.rows[id];
      if !r.state.InputRequired? then Step(s, Refused(NotInputRequired))
      else if r.requester != who.id && !who.admin then Step(s, Refused(NotRequester))
      else if r.requester != who.id && Blank(reason) then Step(s, Refused(ReasonRequired))
      else
        Step(s.(rows := s.rows[id := r.(state := Submitted, answer := None)],
                comments := s.comments + [Comment(r.work, Some(r.thread), who.id)]),
             Moved(id))
  }

  // --------------------------------------------------------------- needinfo

  /** No open needinfo of this person on this work was created before row i. */
  predicate EarliestOpen(rows: seq<Row>, target: ActorId, work: WorkId, i: RequestId)
    requires i < |rows|
  {
    && OpenNeedInfo(rows[i], target, work)
    && forall j :: 0 <= j < |rows| && OpenNeedInfo(rows[j], target, work) ==>
         rows[i].createdAt < rows[j].createdAt || (rows[i].createdAt == rows[j].createdAt && i <= j)
  }

  function SettledByComment(rows: seq<Row>, target: ActorId, work: WorkId, c: CommentId, i: RequestId): Row
    requires i < |rows|
  {
    if OpenNeedInfo(rows[i], target, work) then
      Unclaimed(rows[i]).(state := Completed, answer := if EarliestOpen(rows, target, work, i) then Some(c) else None)
    else rows[i]
  }

  /** Any comment a person writes on the work answers their open needinfos there; the earliest takes the comment. */
  function DoComment(s: Ledger, author: ActorId, work: WorkId, parent: Option<CommentId>): Step {
    if author !in s.actors then Step(s, Refused(BadReference))
    else
      var c := |s.comments|;
      Step(s.(rows := seq(|s.rows|, i requires 0 <= i < |s.rows| => SettledByComment(s.rows, author, work, c, i)),
              comments := s.comments + [Comment(work, parent, author)]),
           Commented(c))
  }

  function DoWithdraw(s: Ledger, id: RequestId, who: Caller, reason: string): Step {
    if id >= |s.rows| then Step(s, Refused(NotFound))
    else
      var r := s.rows[id];
      if !r.needInfo then Step(s, Refused(NotNeedInfo))
      else if r.requester != who.id && !(who.kind.Human? && who.admin) then Step(s, Refused(NotRequester))
      else if r.requester != who.id && Blank(reason) then Step(s, Refused(ReasonRequired))
      else if IsTerminal(r.state) then Step(s, Refused(AlreadyTerminal))
      else Step(s.(rows := s.rows[id := Unclaimed(r).(state := Canceled)]), Moved(id))
  }

  // ---------------------------------------------------------------- hand-off

  predicate MayWrite(dir: Directory, a: ActorId) {
    exists m :: 0 <= m < |dir.members| && dir.members[m].user == a && !dir.members[m].role.Viewer?
  }

  predicate MayAnswer(c: Credential, a: ActorId, now: Time) {
    c.user == a && !c.revoked && c.mayAnswer && (c.expiresAt.None? || c.expiresAt.value > now)
  }

  /** A person needs ADMIN or a writing role on the team; an agent a live credential with the answer scope. */
  predicate CanAnswerOnTeam(kind: ActorKind, dir: Directory, a: ActorId, now: Time) {
    if kind.Human? then a in dir.admins || MayWrite(dir, a)
    else exists c :: 0 <= c < |dir.credentials| && MayAnswer(dir.credentials[c], a, now)
  }

  datatype SkipReason = AlreadyInChain | Deactivated | IsService | ChainLimit | CannotAnswer

  datatype Judgement = Eligible | NoSuchActor | Skipped(reason: SkipReason)

  datatype SuccessorSource = DeclaredSuccessor | TargetOwner | TeamOwner

  datatype Candidate = Candidate(actor: ActorId, source: SuccessorSource)

  // The situation a hand-off decides in.
  datatype Search = Search(actors: map<ActorId, ActorKind>, dir: Directory, visited: set<ActorId>, forceHuman: bool, now: Time)

  function Judge(q: Search, a: ActorId): Judgement {
    if a in q.visited then Skipped(AlreadyInChain)
    else if a !in q.actors then NoSuchActor
    else if a !in q.dir.active then Skipped(Deactivated)
    else if q.actors[a].Service? then Skipped(IsService)
    else if q.forceHuman && !q.actors[a].Human? then Skipped(ChainLimit)
    else if !CanAnswerOnTeam(q.actors[a], q.dir, a, q.now) then Skipped(CannotAnswer)
    else Eligible
  }

  predicate IsTeamOwner(q: Search, m: Member) {
    m.role.Owner? && m.user in q.actors && q.actors[m.user].Human? && m.user in q.dir.active
  }

  /** The first `take` human owners of the team, oldest membership first. */
  function TeamOwners(q: Search, members: seq<Member>, take: nat): seq<Candidate> {
    if members == [] || take == 0 then []
    else if IsTeamOwner(q, members[0]) then
      [Candidate(members[0].user, TeamOwner)] + TeamOwners(q, members[1..], take - 1)
    else TeamOwners(q, members[1..], take)
  }

  /** Declared successor, then the target's owner, then the team's human owners. */
  function Candidates(q: Search, target: ActorId): seq<Candidate> {
    (if target in q.dir.successor then [Candidate(q.dir.successor[target], DeclaredSuccessor)] else [])
    + (if target in q.dir.owner then [Candidate(q.dir.owner[target], TargetOwner)] else [])
    + TeamOwners(q, q.dir.members, OWNER_CANDIDATES)
  }

  function FirstEligible(q: Search, cs: seq<Candidate>): Option<Candidate> {
    if cs == [] then None
    else if Judge(q, cs[0].actor).Eligible? then Some(cs[0])
    else FirstEligible(q, cs[1..])
  }

  function Visited(rows: seq<Row>, root: RequestId): set<ActorId> {
    set i | 0 <= i < |rows| && InChain(rows, root, i) :: rows[i].target
  }

  predicate OverdueRow(r: Row, now: Time) { r.deadline <= now && IsClaimable(r.state) }

  predicate Overdue(s: Ledger, id: RequestId, now: Time) { id < |s.rows| && OverdueRow(s.rows[id], now) }

  function ChainDeadline(r: Row): Time { r.chainDeadline.GetOr(r.createdAt + CHAIN_TOTAL_MS) }

  function HandOffSearch(s: Ledger, id: RequestId, dir: Directory, now: Time): Search
    requires id < |s.rows|
  {
    var r := s.rows[id];
    Search(s.actors, dir, Visited(s.rows, RootOf(s.rows, id)) + {r.target},
           r.hops + 1 >= MAX_HANDOFF_HOPS || now >= ChainDeadline(r), now)
  }

  function SuccessorOf(s: Ledger, id: RequestId, dir: Directory, now: Time): Option<Candidate>
    requires id < |s.rows|
  {
    var q := HandOffSearch(s, id, dir, now);
    FirstEligible(q, Candidates(q, s.rows[id].target))
  }

  /** The request opened for the successor. A person gets the full window; an agent is capped by the chain. */
  function HandedOffRow(r: Row, id: RequestId, root: RequestId, next: ActorId, kind: ActorKind, now: Time): Row {
    var full := now + HANDOFF_DEADLINE_MS;
    NewRow(next, r.requester, r.work, r.thread, Some(HandOffKey(id)),
           if kind.Human? then full else Min(full, ChainDeadline(r)), false, now)
      .(handedOffFrom := Some(id), root := Some(root), hops := r.hops + 1, chainDeadline := Some(ChainDeadline(r)))
  }

  function DoExpire(s: Ledger, id: RequestId, sweeper: ActorId, dir: Directory, now: Time): Step {
    if !Overdue(s, id, now) then Step(s, Refused(NotOverdue))
    else
      var r := s.rows[id];
      var noticed := s.(comments := s.comments + [Comment(r.work, Some(r.thread), sweeper)]);
      if r.needInfo then
        Step(noticed.(rows := s.rows[id := r.(state := Failed)]), Expired(id, None))
      else
        var root := RootOf(s.rows, id);
        var linked := s.rows[id := r.(state := Failed, root := Some(root))];
        var pick := SuccessorOf(s, id, dir, now);
        if pick.None? || pick.value.actor !in s.actors then Step(noticed.(rows := linked), Expired(id, None))
        else if KeyUsed(s, Some(HandOffKey(id))) then Step(s, Refused(UniqueViolation))
        else
          var next := HandedOffRow(r, id, root, pick.value.actor, s.actors[pick.value.actor], now);
          Step(noticed.(rows := linked + [next]), Expired(id, Some(|s.rows|)))
  }

  // -------------------------------------------------------------- delegation

  predicate LiveFor(r: Row, actor: ActorId, work: WorkId) {
    r.work == work && r.target == actor && IsClaimable(r.state)
  }

  /** The newest live request addressed to the caller on this work, or none when there is none. */
  predicate IsParent(s: Ledger, actor: ActorId, work: WorkId, parent: Option<RequestId>) {
    match parent
    case None => forall i :: 0 <= i < |s.rows| ==> !LiveFor(s.rows[i], actor, work)
    case Some(p) =>
      && p < |s.rows| && LiveFor(s.rows[p], actor, work)
      && forall i :: 0 <= i < |s.rows| && LiveFor(s.rows[i], actor, work) ==> s.rows[i].createdAt <= s.rows[p].createdAt
  }

  predicate InDelegationChain(s: Ledger, root: RequestId, a: ActorId) {
    exists i :: 0 <= i < |s.rows| && InChain(s.rows, root, i) && (s.rows[i].target == a || s.rows[i].requester == a)
  }

  function DelegationHops(s: Ledger, parent: Option<RequestId>): nat
    requires parent.Some? ==> parent.value < |s.rows|
  {
    if parent.Some? then s.rows[parent.value].hops + 1 else 0
  }

  function DelegationDeadline(s: Ledger, parent: Option<RequestId>, now: Time): Time
    requires parent.Some? ==> parent.value < |s.rows|
  {
    if parent.Some? then s.rows[parent.value].chainDeadline.GetOr(now + CHAIN_TOTAL_MS) else now + CHAIN_TOTAL_MS
  }

  function Remaining(s: Ledger, d: Delegation): int
    requires d.parent.Some? ==> d.parent.value < |s.rows|
  {
    if d.parent.Some? then s.rows[d.parent.value].budget.GetOr(d.asked) else d.asked
  }

  function Debited(s: Ledger, d: Delegation, spend: int): seq<Row>
    requires d.parent.Some? ==> d.parent.value < |s.rows|
  {
    if d.parent.Some? && s.rows[d.parent.value].budget.Some? then
      var p := s.rows[d.parent.value];
      s.rows[d.parent.value := p.(budget := Some(p.budget.value - spend))]
    else s.rows
  }

  function DelegatedRow(s: Ledger, d: Delegation, spend: int, now: Time): Row
    requires d.parent.Some? ==> d.parent.value < |s.rows|
  {
    var chainDeadline := DelegationDeadline(s, d.parent, now);
    NewRow(d.target, d.from, d.work, |s.comments|, CallerKeyOf(d.key),
           Min(now + DEFAULT_REQUEST_DEADLINE_MS, chainDeadline), false, now)
      .(root := Some(if d.parent.Some? then RootOf(s.rows, d.parent.value) else |s.rows|),
        hops := DelegationHops(s, d.parent), chainDeadline := Some(chainDeadline), budget := Some(spend))
  }

  /** Who may delegate what, to whom, on which work; a replayed key returns the request it opened. */
  function RefusedAtOnce(s: Ledger, d: Delegation): Option<Outcome> {
    if !d.fromKind.Agent? then Some(Refused(AgentsOnly))
    else if !(1 <= d.asked <= MAX_DELEGATED_BUDGET) then Some(Refused(BadBudget))
    else if Blank(d.body) then Some(Refused(BodyRequired))
    else if KeyUsed(s, CallerKeyOf(d.key)) then Some(Replayed(KeyHolder(s.rows, CallerKeyOf(d.key))))
    else if !d.committed then Some(Refused(NotCommitted))
    else if d.from !in s.actors || !IsParent(s, d.from, d.work, d.parent) then Some(Refused(BadReference))
    else if d.target !in s.actors || !s.actors[d.target].Agent? || d.target == d.from || !d.credentialed then
      Some(Refused(BadTarget))
    else None
  }

  /** What the chain and the policy refuse: no root, too many hops, a cycle, no authority, no budget. */
  function RefusedByChain(s: Ledger, d: Delegation): Option<Outcome>
    requires d.parent.Some? ==> d.parent.value < |s.rows|
  {
    if d.parent.None? && !d.policyCommit then Some(Refused(NoRoot))
    else if DelegationHops(s, d.parent) >= MAX_HANDOFF_HOPS then Some(Refused(TooManyHops))
    else if d.parent.Some? && InDelegationChain(s, RootOf(s.rows, d.parent.value), d.target) then
      Some(Refused(ChainCycle))
    else if !d.policyAllows then
      Some(Refused(if Remaining(s, d) <= 0 && d.gateAuto then BudgetExhausted else PolicyRefused))
    else if Min(d.asked, Remaining(s, d)) <= 0 then Some(Refused(BudgetExhausted))
    else None
  }

  function DoDelegate(s: Ledger, d: Delegation, now: Time): Step {
    var first := RefusedAtOnce(s, d);
    if first.Some? then Step(s, first.value)
    else
      var second := RefusedByChain(s, d);
      if second.Some? then Step(s, second.value)
      else
        var spend := Min(d.asked, Remaining(s, d));
        Step(s.(rows := Debited(s, d, spend) + [DelegatedRow(s, d, spend, now)],
                comments := s.comments + [Comment(d.work, None, d.from)]),
             Delegated(|s.rows|, spend))
  }

  /** Intake dispatch, first statement: open the request, or find the one this work already has. */
  function DoDispatchCreate(s: Ledger, gate: ActorId, target: ActorId, work: WorkId, now: Time): Step {
    var commented := s.(comments := s.comments + [Comment(work, None, gate)]);
    if target !in s.actors || !s.actors[target].Agent? || gate !in s.actors then Step(s, Refused(BadTarget))
    else
      DoCreate(commented, NewRow(target, gate, work, |s.comments|, Some(IntakeKey(work)),
                                 now + DEFAULT_REQUEST_DEADLINE_MS, false, now))
  }

  /** Intake dispatch, second statement: make it the root of a budgeted chain. */
  function DoDispatchLink(s: Ledger, work: WorkId, now: Time): Step {
    if !KeyUsed(s, Some(IntakeKey(work))) then Step(s, Refused(NotFound))
    else
      var id := KeyHolder(s.rows, Some(IntakeKey(work)));
      Step(s.(rows := s.rows[id := s.rows[id].(root := Some(id), hops := 0, chainDeadline := Some(now + CHAIN_TOTAL_MS),
                                               budget := Some(DEFAULT_DISPATCH_BUDGET))]),
           Moved(id))
  }

  // -------------------------------------------------------------------- runs

  function Apply(s: Ledger, e: Event): Step {
    match e
    case Create(key, target, requester, work, thread, deadline, now) =>
      DoCreate(s, NewRow(target, requester, work, thread, CallerKeyOf(key),
                         deadline.GetOr(now + DEFAULT_REQUEST_DEADLINE_MS), false, now))
    case AskNeedInfo(key, who, target, work, question, dir, now) => DoAskNeedInfo(s, key, who, target, work, question, dir, now)
    case Claim(id, actor, presented, leaseMs, now) => DoClaim(s, id, actor, presented, leaseMs, now)
    case ReadForAnswer(session, id, actor, token, body, now) => DoRead(s, session, id, actor, token, body, now)
    case CommitAnswer(session, verdict) => DoCommit(s, session, verdict)
    case HumanAnswer(id, who, body, reason, verdict) => DoHumanAnswer(s, id, who, body, reason, verdict)
    case Cancel(id) => DoCancel(s, id)
    case Reply(id, who, body, reason) => DoReply(s, id, who, body, reason)
    case CommentOnWork(author, work, parent) => DoComment(s, author, work, parent)
    case Withdraw(id, who, reason) => DoWithdraw(s, id, who, reason)
    case Expire(id, sweeper, dir, now) => DoExpire(s, id, sweeper, dir, now)
    case Delegate(d, now) => DoDelegate(s, d, now)
    case DispatchCreate(gate, target, work, now) => DoDispatchCreate(s, gate, target, work, now)
    case DispatchLink(work, now) => DoDispatchLink(s, work, now)
  }

  function Init(actors: map<ActorId, ActorKind>): Ledger { Ledger(actors, [], [], [], map[]) }

  /** The ledger after a whole sequence of steps by any mix of sessions. */
  function Run(s: Ledger, events: seq<Event>): Ledger {
    if events == [] then s else Apply(Run(s, events[..|events| - 1]), events[|events| - 1]).state
  }
}
