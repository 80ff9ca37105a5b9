/**
 * Work leases: claim, renew, release and expiry, with the runs executed under
 * them. One reading of the clock per transaction; readings need not advance.
 */
module WorkClaims {
  import opened Wrappers

  type WorkId = nat
  type ActorId = nat
  type ClaimId = nat
  type Token = nat
  type Time = int

  const DEFAULT_CLAIM_LEASE_SECONDS := 2 * 60 * 60

  datatype ActorKind = Human | Agent | Service

  datatype Actor = Actor(id: ActorId, kind: ActorKind)

  // The digest of an execution token; distinct tokens have distinct digests.
  datatype TokenHash = Sha256(preimage: Token)

  datatype Claim = Claim(id: ClaimId, actor: ActorId, tokenHash: Option<TokenHash>, leaseUntil: Time)

  datatype RunStatus = Queued | Running | Blocked | Completed | Failed

  predicate IsOpen(s: RunStatus) { s.Queued? || s.Running? || s.Blocked? }

  // A run, the claim it is attached to, the claim it was opened under, and the digest of that claim's token.
  datatype Run = Run(
    work: WorkId, actor: ActorId, claim: Option<ClaimId>, snapshot: Option<ClaimId>, tokenHash: Option<TokenHash>,
    status: RunStatus, revoked: bool)

  // Claim ids and tokens are counted up, so each new one is fresh.
  datatype Board = Board(claims: map<WorkId, Claim>, runs: seq<Run>, nextClaim: ClaimId, nextToken: Token)

  datatype Refusal =
    | AlreadyClaimed | TokenRequired | NotReady | NoClaim | Forbidden | ReasonRequired | NeedsActiveClaim | Superseded | TerminalRun | BadTransition | StillLive

  datatype Outcome =
    | Refused(why: Refusal)
    | Taken(claim: ClaimId, token: Option<Token>)
    | Renewed(claim: ClaimId)
    | Released(claim: ClaimId)
    | Swept(claim: ClaimId)
    | RunWritten(run: nat)

  datatype Step = Step(board: Board, outcome: Outcome)

  datatype Event =
    | ClaimWork(work: WorkId, actor: Actor, token: Option<Token>, leaseSeconds: Option<int>, ready: bool, now: Time)
    | Release(work: WorkId, actor: Actor, token: Option<Token>, hasReason: bool, now: Time)
    | Sweep(work: WorkId, now: Time)
    | ReportWork(work: WorkId, actor: Actor, token: Option<Token>, status: Option<RunStatus>, late: bool, now: Time)
    | ReportRun(run: nat, actor: Actor, token: Option<Token>, status: Option<RunStatus>, now: Time)

  predicate Live(c: Claim, now: Time) { c.leaseUntil > now }

  predicate Holds(b: Board, work: WorkId, actor: ActorId, now: Time) {
    work in b.claims && b.claims[work].actor == actor && Live(b.claims[work], now)
  }

  /** assertWorkToken: a stored digest, a presented token, and they match. */
  predicate TokenMatches(hash: Option<TokenHash>, token: Option<Token>) {
    hash.Some? && token.Some? && hash.value == Sha256(token.value)
  }

  function LeaseEnd(leaseSeconds: Option<int>, now: Time): Time {
    now + (if leaseSeconds.Some? && leaseSeconds.value > 0 then leaseSeconds.value else DEFAULT_CLAIM_LEASE_SECONDS) * 1000
  }

  function MapRuns(runs: seq<Run>, f: Run -> Run): (r: seq<Run>)
    ensures |r| == |runs| && forall i :: 0 <= i < |r| ==> r[i] == f(runs[i])
  {
    seq(|runs|, i requires 0 <= i < |runs| => f(runs[i]))
  }

  /** A fresh take fails every open run of the work and revokes every one not yet revoked. */
  function Superseded1(work: WorkId, r: Run): Run {
    if r.work == work then r.(status := if IsOpen(r.status) then Failed else r.status, revoked := true) else r
  }

  /** Ending a claim revokes the runs opened under it, fails the open ones attached to it, and detaches them. */
  function Ended1(work: WorkId, claim: ClaimId, r: Run): Run {
    var revoked := r.revoked || (r.work == work && r.snapshot == Some(claim));
    if r.claim == Some(claim) then
      r.(revoked := revoked, status := if IsOpen(r.status) then Failed else r.status, claim := None)
    else r.(revoked := revoked)
  }

  /** Deleting a claim row detaches its runs. */
  function Detached1(claim: ClaimId, r: Run): Run {
    if r.claim == Some(claim) then r.(claim := None) else r
  }

  function DoClaim(b: Board, work: WorkId, actor: Actor, token: Option<Token>, leaseSeconds: Option<int>, ready: bool, now: Time): Step {
    var lease := LeaseEnd(leaseSeconds, now);
    if work in b.claims && Live(b.claims[work], now) && b.claims[work].actor != actor.id then Step(b, Refused(AlreadyClaimed))
    else if Holds(b, work, actor.id, now) then
      if actor.kind.Agent? && !TokenMatches(b.claims[work].tokenHash, token) then Step(b, Refused(TokenRequired))
      else Step(b.(claims := b.claims[work := b.claims[work].(leaseUntil := lease)]), Renewed(b.claims[work].id))
    else if !ready then Step(b, Refused(NotReady))
    else Step(FreshTake(b, work, actor, lease), Taken(b.nextClaim, if actor.kind.Agent? then Some(b.nextToken) else None))
  }

  /** An expired claim row makes way for a new one; every earlier run of the work is failed and revoked. */
  function FreshTake(b: Board, work: WorkId, actor: Actor, lease: Time): Board {
    var hash := if actor.kind.Agent? then Some(Sha256(b.nextToken)) else None;
    Board(b.claims[work := Claim(b.nextClaim, actor.id, hash, lease)],
          MapRuns(DetachedRuns(b, work), r => Superseded1(work, r)), b.nextClaim + 1, b.nextToken + 1)
  }

  function DetachedRuns(b: Board, work: WorkId): (runs: seq<Run>)
    ensures |runs| == |b.runs|
    ensures forall i :: 0 <= i < |runs| ==> runs[i] == (if work in b.claims then Detached1(b.claims[work].id, b.runs[i]) else b.runs[i])
  {
    if work in b.claims then MapRuns(b.runs, r => Detached1(b.claims[work].id, r)) else b.runs
  }

  function EndClaim(b: Board, work: WorkId): Board
    requires work in b.claims
  {
    var id := b.claims[work].id;
    b.(claims := b.claims - {work}, runs := MapRuns(b.runs, r => Ended1(work, id, r)))
  }

  function DoRelease(b: Board, work: WorkId, actor: Actor, token: Option<Token>, hasReason: bool, now: Time): Step {
    if actor.kind.Service? then Step(b, Refused(Forbidden))
    else if !hasReason then Step(b, Refused(ReasonRequired))
    else if work !in b.claims then Step(b, Refused(NoClaim))
    else if actor.kind.Agent? && !Holds(b, work, actor.id, now) then Step(b, Refused(Forbidden))
    else if actor.kind.Agent? && !TokenMatches(b.claims[work].tokenHash, token) then Step(b, Refused(TokenRequired))
    else Step(EndClaim(b, work), Released(b.claims[work].id))
  }

  function DoSweep(b: Board, work: WorkId, now: Time): Step {
    if work !in b.claims then Step(b, Refused(NoClaim))
    else if Live(b.claims[work], now) then Step(b, Refused(StillLive))
    else Step(EndClaim(b, work), Swept(b.claims[work].id))
  }

  predicate Ends(status: Option<RunStatus>) { status.Some? && !IsOpen(status.value) }

  /** The claim a report counts on: its actor's own, live, unless a person files the end of a run. */
  predicate ActiveClaim(b: Board, work: WorkId, actor: Actor, status: Option<RunStatus>, now: Time) {
    && work in b.claims && b.claims[work].actor == actor.id
    && (Live(b.claims[work], now) || (Ends(status) && !actor.kind.Agent?))
  }

  /** ALLOWED_RUN_TRANSITIONS: an open run moves to anything but QUEUED. */
  predicate Follows(was: RunStatus, next: RunStatus) { IsOpen(was) && !next.Queued? && next != was }

  predicate IsOpenUnder(r: Run, claim: ClaimId) { r.claim == Some(claim) && IsOpen(r.status) }

  /** The open run attached to a claim, if there is one. */
  function OpenRunOf(runs: seq<Run>, claim: ClaimId): (k: Option<nat>)
    ensures k.Some? ==> k.value < |runs| && IsOpenUnder(runs[k.value], claim)
    ensures k.None? ==> forall i :: 0 <= i < |runs| ==> !IsOpenUnder(runs[i], claim)
  {
    if runs == [] then None
    else if IsOpenUnder(runs[|runs| - 1], claim) then Some(|runs| - 1)
    else OpenRunOf(runs[..|runs| - 1], claim)
  }

  /** Deleting the claim of a work detaches its runs. */
  function DropClaim(b: Board, work: WorkId): Board { b.(claims := b.claims - {work}, runs := DetachedRuns(b, work)) }

  /** A run was written under the claim of its work; completing it deletes that claim. */
  function Written(b: Board, k: nat): Step
    requires k < |b.runs|
  {
    Step(if b.runs[k].status.Completed? then DropClaim(b, b.runs[k].work) else b, RunWritten(k))
  }

  /** Writing to an existing run, with the digest its token is held against and whether its claim was found. */
  function DoWrite(b: Board, k: nat, actor: Actor, hash: Option<TokenHash>, token: Option<Token>, status: Option<RunStatus>, bound: bool): Step
    requires k < |b.runs|
  {
    var r := b.runs[k];
    if actor.kind.Agent? && !TokenMatches(hash, token) then Step(b, Refused(TokenRequired))
    else if actor.kind.Agent? && r.revoked then Step(b, Refused(Superseded))
    else if r.actor != actor.id then Step(b, Refused(Forbidden))
    else if !IsOpen(r.status) then Step(b, Refused(TerminalRun))
    else if !bound then Step(b, Refused(NeedsActiveClaim))
    else if status.Some? && status.value != r.status && !Follows(r.status, status.value) then Step(b, Refused(BadTransition))
    else Written(b.(runs := b.runs[k := r.(status := status.GetOr(r.status))]), k)
  }

  /** A report that names a run needs the claim that run is attached to. */
  function DoReportRun(b: Board, run: nat, actor: Actor, token: Option<Token>, status: Option<RunStatus>, now: Time): Step {
    if run >= |b.runs| then Step(b, Refused(Forbidden))
    else
      var r := b.runs[run];
      DoWrite(b, run, actor, r.tokenHash, token, status,
              ActiveClaim(b, r.work, actor, status, now) && r.claim == Some(b.claims[r.work].id))
  }

  /** A report that names none goes to the open run of the actor's claim, else opens one; without a claim only a late completed run is taken. */
  function DoReportWork(b: Board, work: WorkId, actor: Actor, token: Option<Token>, status: Option<RunStatus>, late: bool, now: Time): Step {
    if ActiveClaim(b, work, actor, status, now) then
      var c := b.claims[work];
      var open := OpenRunOf(b.runs, c.id);
      if open.Some? then
        var hash := b.runs[open.value].tokenHash;
        DoWrite(b, open.value, actor, if hash.Some? then hash else c.tokenHash, token, status, true)
      else if actor.kind.Agent? && !TokenMatches(c.tokenHash, token) then Step(b, Refused(TokenRequired))
      else
        Written(b.(runs := b.runs + [Run(work, actor.id, Some(c.id), Some(c.id), c.tokenHash, status.GetOr(Running), false)]), |b.runs|)
    else if status == Some(Completed) && late && (work in b.claims ==> b.claims[work].actor == actor.id && !Live(b.claims[work], now)) then
      var dropped := DropClaim(b, work);
      Step(dropped.(runs := dropped.runs + [Run(work, actor.id, None, None, None, Completed, false)]), RunWritten(|b.runs|))
    else Step(b, Refused(NeedsActiveClaim))
  }

  function Apply(b: Board, e: Event): Step {
    match e
    case ClaimWork(work, actor, token, leaseSeconds, ready, now) => DoClaim(b, work, actor, token, leaseSeconds, ready, now)
    case Release(work, actor, token, hasReason, now) => DoRelease(b, work, actor, token, hasReason, now)
    case Sweep(work, now) => DoSweep(b, work, now)
    case ReportWork(work, actor, token, status, late, now) => DoReportWork(b, work, actor, token, status, late, now)
    case ReportRun(run, actor, token, status, now) => DoReportRun(b, run, actor, token, status, now)
  }

  const EMPTY := Board(map[], [], 0, 0)

  function After(b: Board, events: seq<Event>): Board {
    if events == [] then b else Apply(After(b, events[..|events| - 1]), events[|events| - 1]).board
  }

  // ----------------------------------------------------------------- invariant

  /** Ids and tokens in use were handed out, no two claims share either, runs name claims of their own work, and a claim has at most one open run. */
  ghost predicate Inv(b: Board) {
    && (forall w :: w in b.claims ==> b.claims[w].id < b.nextClaim)
    && (forall w :: w in b.claims && b.claims[w].tokenHash.Some? ==> b.claims[w].tokenHash.value.preimage < b.nextToken)
    && (forall w, v :: w in b.claims && v in b.claims && w != v ==>
          b.claims[w].id != b.claims[v].id && (b.claims[w].tokenHash.Some? ==> b.claims[w].tokenHash != b.claims[v].tokenHash))
    && (forall i :: 0 <= i < |b.runs| ==> RunOk(b, b.runs[i]))
    && OneOpenRun(b.runs)
  }

  ghost predicate RunOk(b: Board, r: Run) {
    && (r.snapshot.Some? ==> r.snapshot.value < b.nextClaim)
    && (r.claim.Some? ==>
          && r.snapshot == r.claim && r.work in b.claims && b.claims[r.work].id == r.claim.value
          && b.claims[r.work].actor == r.actor && b.claims[r.work].tokenHash == r.tokenHash)
    && (forall w :: w in b.claims && r.snapshot == Some(b.claims[w].id) ==> r.work == w && (IsOpen(r.status) ==> r.claim == r.snapshot))
  }

  ghost predicate OneOpenRun(runs: seq<Run>) {
    forall i, j :: 0 <= i < j < |runs| && IsOpen(runs[i].status) && IsOpen(runs[j].status) && runs[i].claim.Some? ==>
      runs[i].claim != runs[j].claim
  }

  lemma StepKeepsInv(b: Board, e: Event)
    requires Inv(b)
    ensures Inv(Apply(b, e).board)
  {
    match e
    case ClaimWork(work, actor, token, leaseSeconds, ready, now) => ClaimKeepsInv(b, work, actor, token, leaseSeconds, ready, now);
    case Release(work, actor, token, hasReason, now) => if work in b.claims { EndKeepsInv(b, work); }
    case Sweep(work, now) => if work in b.claims { EndKeepsInv(b, work); }
    case ReportWork(work, actor, token, status, late, now) => ReportWorkKeepsInv(b, work, actor, token, status, late, now);
    case ReportRun(run, actor, token, status, now) =>
      if run < |b.runs| {
        assert RunOk(b, b.runs[run]);
        WriteKeepsInv(b, run, actor, b.runs[run].tokenHash, token, status,
                      ActiveClaim(b, b.runs[run].work, actor, status, now) && b.runs[run].claim == Some(b.claims[b.runs[run].work].id));
      }
  }

  lemma ClaimKeepsInv(b: Board, work: WorkId, actor: Actor, token: Option<Token>, leaseSeconds: Option<int>, ready: bool, now: Time)
    requires Inv(b)
    ensures Inv(DoClaim(b, work, actor, token, leaseSeconds, ready, now).board)
  {
    var step := DoClaim(b, work, actor, token, leaseSeconds, ready, now);
    if step.outcome.Taken? {
      TakeKeepsInv(b, work, actor, LeaseEnd(leaseSeconds, now));
    } else {
      forall i | 0 <= i < |step.board.runs|
        ensures RunOk(step.board, step.board.runs[i])
      {
        assert RunOk(b, b.runs[i]);
      }
    }
  }

  lemma TakenRuns(b: Board, work: WorkId, actor: Actor, lease: Time)
    ensures var b' := FreshTake(b, work, actor, lease);
      |b'.runs| == |b.runs| && forall i :: 0 <= i < |b.runs| ==> b'.runs[i] == Superseded1(work, DetachedRuns(b, work)[i])
  {
  }

  lemma TakeKeepsOneOpenRun(b: Board, work: WorkId, actor: Actor, lease: Time)
    requires OneOpenRun(b.runs)
    ensures OneOpenRun(FreshTake(b, work, actor, lease).runs)
  {
    var b' := FreshTake(b, work, actor, lease);
    TakenRuns(b, work, actor, lease);
    forall i | 0 <= i < |b.runs|
      ensures b'.runs[i].claim.Some? ==> b'.runs[i].claim == b.runs[i].claim
      ensures IsOpen(b'.runs[i].status) ==> IsOpen(b.runs[i].status)
    {
    }
  }

  lemma TakeKeepsInv(b: Board, work: WorkId, actor: Actor, lease: Time)
    requires Inv(b)
    ensures Inv(FreshTake(b, work, actor, lease))
  {
    var b' := FreshTake(b, work, actor, lease);
    TakenRuns(b, work, actor, lease);
    forall i | 0 <= i < |b'.runs|
      ensures RunOk(b', b'.runs[i])
    {
      assert RunOk(b, b.runs[i]);
    }
    TakeKeepsOneOpenRun(b, work, actor, lease);
  }

  lemma DropKeepsInv(b: Board, work: WorkId)
    requires Inv(b)
    ensures Inv(DropClaim(b, work))
  {
    var b' := DropClaim(b, work);
    forall i | 0 <= i < |b'.runs|
      ensures RunOk(b', b'.runs[i])
    {
      assert RunOk(b, b.runs[i]);
    }
  }

  /** Runs written on, or added, without touching any claim. */
  lemma RunsKeepInv(b: Board, b': Board)
    requires Inv(b) && b' == b.(runs := b'.runs) && |b.runs| <= |b'.runs|
    requires forall i :: 0 <= i < |b'.runs| ==>
      if i < |b.runs| then b'.runs[i] == b.runs[i].(status := b'.runs[i].status) && (!IsOpen(b.runs[i].status) ==> !IsOpen(b'.runs[i].status))
      else RunOk(b, b'.runs[i]) && (b'.runs[i].claim.Some? ==> OpenRunOf(b.runs, b'.runs[i].claim.value).None?)
    requires |b'.runs| <= |b.runs| + 1
    ensures Inv(b')
  {
    forall i | 0 <= i < |b'.runs|
      ensures RunOk(b', b'.runs[i])
    {
      if i < |b.runs| {
        assert RunOk(b, b.runs[i]);
      }
    }
    forall i, j | 0 <= i < j < |b'.runs| && IsOpen(b'.runs[i].status) && IsOpen(b'.runs[j].status) && b'.runs[i].claim.Some?
      ensures b'.runs[i].claim != b'.runs[j].claim
    {
      assert b.runs[i].claim == b'.runs[i].claim;
      if j == |b.runs| && b'.runs[i].claim == b'.runs[j].claim {
        assert IsOpenUnder(b.runs[i], b'.runs[j].claim.value);
      }
    }
  }

  lemma WriteKeepsInv(b: Board, k: nat, actor: Actor, hash: Option<TokenHash>, token: Option<Token>, status: Option<RunStatus>, bound: bool)
    requires Inv(b) && k < |b.runs|
    ensures Inv(DoWrite(b, k, actor, hash, token, status, bound).board)
  {
    var r := b.runs[k];
    if DoWrite(b, k, actor, hash, token, status, bound).outcome.RunWritten? {
      var mid := b.(runs := b.runs[k := r.(status := status.GetOr(r.status))]);
      RunsKeepInv(b, mid);
      DropKeepsInv(mid, r.work);
    }
  }

  lemma ReportWorkKeepsInv(b: Board, work: WorkId, actor: Actor, token: Option<Token>, status: Option<RunStatus>, late: bool, now: Time)
    requires Inv(b)
    ensures Inv(DoReportWork(b, work, actor, token, status, late, now).board)
  {
    if ActiveClaim(b, work, actor, status, now) {
      var c := b.claims[work];
      var open := OpenRunOf(b.runs, c.id);
      if open.Some? {
        var hash := b.runs[open.value].tokenHash;
        WriteKeepsInv(b, open.value, actor, if hash.Some? then hash else c.tokenHash, token, status, true);
      } else {
        var mid := b.(runs := b.runs + [Run(work, actor.id, Some(c.id), Some(c.id), c.tokenHash, status.GetOr(Running), false)]);
        RunsKeepInv(b, mid);
        DropKeepsInv(mid, work);
      }
    } else {
      var dropped := DropClaim(b, work);
      DropKeepsInv(b, work);
      RunsKeepInv(dropped, dropped.(runs := dropped.runs + [Run(work, actor.id, None, None, None, Completed, false)]));
    }
  }

  lemma EndKeepsInv(b: Board, work: WorkId)
    requires Inv(b) && work in b.claims
    ensures Inv(EndClaim(b, work))
  {
    var b' := EndClaim(b, work);
    forall i | 0 <= i < |b'.runs|
      ensures RunOk(b', b'.runs[i])
    {
      assert RunOk(b, b.runs[i]);
    }
  }

  lemma {:induction false} AfterKeepsInv(b: Board, events: seq<Event>)
    requires Inv(b)
    ensures Inv(After(b, events))
  {
    if events != [] {
      AfterKeepsInv(b, events[..|events| - 1]);
      StepKeepsInv(After(b, events[..|events| - 1]), events[|events| - 1]);
    }
  }

  // -------------------------------------------------------- the lease is exclusive

  /** The step ends the claim on a work: it is released, a run of the work completes, or its lease is over and it is swept or taken. */
  ghost predicate EndsClaim(b: Board, e: Event, work: WorkId)
    requires work in b.claims
  {
    var step := Apply(b, e);
    || (e.Release? && e.work == work && step.outcome.Released?)
    || (step.outcome.RunWritten? && Completes(step.board, step.outcome.run, work))
    || (!Live(b.claims[work], e.now) && ((e.Sweep? && e.work == work) || (e.ClaimWork? && e.work == work && step.outcome.Taken?)))
  }

  ghost predicate Completes(b: Board, k: nat, work: WorkId) {
    k < |b.runs| && b.runs[k].work == work && b.runs[k].status.Completed?
  }

  /** This very claim, with its actor and its token. */
  ghost predicate Stands(b: Board, work: WorkId, c: Claim) {
    work in b.claims && b.claims[work].id == c.id && b.claims[work].actor == c.actor && b.claims[work].tokenHash == c.tokenHash
  }

  lemma ReportStandsIff(b: Board, e: Event, work: WorkId)
    requires Inv(b) && work in b.claims && (e.ReportWork? || e.ReportRun?)
    ensures Stands(Apply(b, e).board, work, b.claims[work]) <==> !EndsClaim(b, e, work)
  {
    var step := Apply(b, e);
    if step.outcome.RunWritten? {
      OnlyTheHolderWrites(b, e);
    } else {
      assert step.board == b;
    }
  }

  lemma ClaimStandsIff(b: Board, e: Event, work: WorkId)
    requires Inv(b) && work in b.claims
    ensures Stands(Apply(b, e).board, work, b.claims[work]) <==> !EndsClaim(b, e, work)
  {
    if e.ReportWork? || e.ReportRun? {
      ReportStandsIff(b, e, work);
    }
  }

  /** A claim that is gone never comes back: every later claim has a later id. */
  lemma GoneStaysGone(b: Board, e: Event, work: WorkId, c: Claim)
    requires Inv(b) && c.id < b.nextClaim && !Stands(b, work, c)
    ensures c.id < Apply(b, e).board.nextClaim && !Stands(Apply(b, e).board, work, c)
  {
  }

  /** Step k of the run ended this very claim. */
  ghost predicate EndedAt(b: Board, c: Claim, work: WorkId, events: seq<Event>, k: nat)
    requires k < |events|
  {
    var at := After(b, events[..k]);
    Stands(at, work, c) && EndsClaim(at, events[k], work)
  }

  lemma EndedInPrefix(b: Board, c: Claim, work: WorkId, events: seq<Event>, n: nat, k: nat)
    requires k < n <= |events|
    ensures EndedAt(b, c, work, events[..n], k) <==> EndedAt(b, c, work, events, k)
  {
    assert events[..n][..k] == events[..k];
  }

  lemma LastStep(b: Board, c: Claim, work: WorkId, events: seq<Event>)
    requires events != []
    requires var mid := After(b, events[..|events| - 1]); Inv(mid) && c.id < mid.nextClaim
    ensures c.id < After(b, events).nextClaim
    ensures Stands(After(b, events), work, c)
      <==> Stands(After(b, events[..|events| - 1]), work, c) && !EndedAt(b, c, work, events, |events| - 1)
  {
    var mid, e := After(b, events[..|events| - 1]), events[|events| - 1];
    if Stands(mid, work, c) {
      StandsOrEnds(mid, e, work, c);
    } else {
      GoneStaysGone(mid, e, work, c);
    }
  }

  lemma StandsOrEnds(b: Board, e: Event, work: WorkId, c: Claim)
    requires Inv(b) && Stands(b, work, c)
    ensures Stands(Apply(b, e).board, work, c) <==> !EndsClaim(b, e, work)
    ensures b.nextClaim <= Apply(b, e).board.nextClaim
  {
    ClaimStandsIff(b, e, work);
  }

  /**
   * Along any run a claim is still there, with its actor and its token, exactly when no
   * step released it, completed a run of its work, or swept or retook it after its lease.
   */
  lemma {:induction false} ClaimKeepsHolderIff(b: Board, c: Claim, work: WorkId, events: seq<Event>)
    requires Inv(b) && work in b.claims && c == b.claims[work]
    ensures Stands(After(b, events), work, c) <==> forall k :: 0 <= k < |events| ==> !EndedAt(b, c, work, events, k)
    ensures c.id < After(b, events).nextClaim
    decreases |events|
  {
    if events != [] {
      var n := |events| - 1;
      ClaimKeepsHolderIff(b, c, work, events[..n]);
      AfterKeepsInv(b, events[..n]);
      LastStep(b, c, work, events);
      forall k | 0 <= k < n
        ensures EndedAt(b, c, work, events[..n], k) <==> EndedAt(b, c, work, events, k)
      {
        EndedInPrefix(b, c, work, events, n, k);
      }
    }
  }

  /** While its lease is live a claim ends only by a release or by its own holder completing a run. */
  lemma LiveClaimEnds(b: Board, e: Event, work: WorkId)
    requires Inv(b) && work in b.claims && Live(b.claims[work], e.now) && EndsClaim(b, e, work)
    ensures e.Release? || ((e.ReportWork? || e.ReportRun?) && e.actor.id == b.claims[work].actor)
  {
    if e.ReportRun? {
      assert RunOk(b, b.runs[e.run]);
    }
  }

  /** A person completes a run and another takes the work afresh while the first lease, never released or swept, would still run. */
  lemma CompletionFreesTheWork() returns (events: seq<Event>, again: Event)
    ensures |events| == 2 && var b := After(EMPTY, events[..1]); 7 in b.claims && b.claims[7].actor == 1 && Live(b.claims[7], again.now)
    ensures forall k :: 0 <= k < |events| ==> !events[k].Release? && !events[k].Sweep?
    ensures again.ClaimWork? && again.work == 7 && again.actor.id == 2 && Apply(After(EMPTY, events), again).outcome.Taken?
  {
    var first := ClaimWork(7, Actor(1, Human), None, None, true, 0);
    var done := ReportWork(7, Actor(1, Human), None, Some(Completed), false, 1);
    again := ClaimWork(7, Actor(2, Human), None, None, true, 2);
    events := [first, done];
    assert events[..1] == [first] && events[..1][..0] == [];
    var b1 := Apply(EMPTY, first).board;
    assert |events| == 2 && After(EMPTY, events[..1]) == b1;
    assert b1.claims == map[7 := Claim(0, 1, None, LeaseEnd(None, 0))] && b1.runs == [];
    var b2 := Apply(b1, done).board;
    assert After(EMPTY, events) == b2;
    assert 7 !in b2.claims;
  }

  /** Under one claim no two runs are open. */
  lemma OneOpenUnder(b: Board, k: nat, i: nat)
    requires Inv(b) && k < |b.runs| && i < |b.runs| && i != k
    requires b.runs[k].claim.Some? && IsOpen(b.runs[k].status) && b.runs[i].snapshot == b.runs[k].snapshot
    ensures !IsOpen(b.runs[i].status)
  {
    assert RunOk(b, b.runs[k]) && RunOk(b, b.runs[i]);
  }

  lemma NoneOpenUnder(b: Board, work: WorkId, i: nat)
    requires Inv(b) && work in b.claims && i < |b.runs| && b.runs[i].snapshot == Some(b.claims[work].id)
    requires OpenRunOf(b.runs, b.claims[work].id).None?
    ensures !IsOpen(b.runs[i].status)
  {
    assert RunOk(b, b.runs[i]) && !IsOpenUnder(b.runs[i], b.claims[work].id);
  }

  ghost predicate EndsRunsUnder(b': Board, k: nat) {
    k < |b'.runs| && (b'.runs[k].status.Completed? && b'.runs[k].snapshot.Some? ==>
      forall i :: 0 <= i < |b'.runs| && b'.runs[i].snapshot == b'.runs[k].snapshot ==> !IsOpen(b'.runs[i].status))
  }

  lemma WriteEndsRuns(b: Board, k: nat, actor: Actor, hash: Option<TokenHash>, token: Option<Token>, status: Option<RunStatus>, bound: bool)
    requires Inv(b) && k < |b.runs| && DoWrite(b, k, actor, hash, token, status, bound).outcome.RunWritten?
    requires b.runs[k].claim.Some?
    ensures EndsRunsUnder(DoWrite(b, k, actor, hash, token, status, bound).board, k)
  {
    WriteEffects(b, k, actor, hash, token, status, bound);
    forall i | 0 <= i < |b.runs| && i != k && b.runs[i].snapshot == b.runs[k].snapshot
      ensures !IsOpen(b.runs[i].status)
    {
      OneOpenUnder(b, k, i);
    }
  }

  lemma UnnamedEndsRuns(b: Board, e: Event, step: Step)
    requires Inv(b) && e.ReportWork? && step == Apply(b, e) && step.outcome.RunWritten?
    ensures EndsRunsUnder(step.board, step.outcome.run)
  {
    if ActiveClaim(b, e.work, e.actor, e.status, e.now) {
      var c := b.claims[e.work];
      var open := OpenRunOf(b.runs, c.id);
      if open.Some? {
        var hash := b.runs[open.value].tokenHash;
        WriteEndsRuns(b, open.value, e.actor, if hash.Some? then hash else c.tokenHash, e.token, e.status, true);
      } else {
        forall i | 0 <= i < |b.runs| && b.runs[i].snapshot == Some(c.id)
          ensures !IsOpen(b.runs[i].status)
        {
          NoneOpenUnder(b, e.work, i);
        }
      }
    }
  }

  /** Completing a run leaves no open run that was opened under the same claim. */
  lemma CompletionEndsRuns(b: Board, e: Event)
    requires Inv(b) && Apply(b, e).outcome.RunWritten?
    ensures EndsRunsUnder(Apply(b, e).board, Apply(b, e).outcome.run)
  {
    if e.ReportRun? {
      WriteEndsRuns(b, e.run, e.actor, b.runs[e.run].tokenHash, e.token, e.status,
                    ActiveClaim(b, b.runs[e.run].work, e.actor, e.status, e.now) && b.runs[e.run].claim == Some(b.claims[b.runs[e.run].work].id));
    } else {
      UnnamedEndsRuns(b, e, Apply(b, e));
    }
  }

  /** An agent renews exactly by presenting the token of its own live claim; the token then stays the same. */
  lemma AgentRenewsByToken(b: Board, e: Event)
    requires e.ClaimWork? && e.actor.kind.Agent?
    ensures var step := Apply(b, e);
      step.outcome.Renewed? <==> Holds(b, e.work, e.actor.id, e.now) && TokenMatches(b.claims[e.work].tokenHash, e.token)
    ensures var step := Apply(b, e);
      step.outcome.Renewed? ==>
        step.board == b.(claims := b.claims[e.work := b.claims[e.work].(leaseUntil := LeaseEnd(e.leaseSeconds, e.now))])
  {
  }

  /** A work is taken afresh exactly when it is ready and nobody's claim on it is live; the taker then holds it, and no other claim moves. */
  lemma TakenIff(b: Board, e: Event)
    requires Inv(b) && e.ClaimWork?
    ensures var step := Apply(b, e);
      && (step.outcome.Taken? <==> e.ready && !(e.work in b.claims && Live(b.claims[e.work], e.now)))
      && (step.outcome.Taken? ==>
            && Holds(step.board, e.work, e.actor.id, e.now)
            && (e.actor.kind.Agent? ==> TokenMatches(step.board.claims[e.work].tokenHash, step.outcome.token))
            && step.outcome.claim == step.board.claims[e.work].id
            && (forall w :: w in b.claims ==> b.claims[w].id != step.outcome.claim)
            && step.board.claims - {e.work} == b.claims - {e.work})
      && (step.outcome.Refused? ==> step.board == b)
  {
    var step := Apply(b, e);
    if step.outcome.Taken? {
      assert step.board.claims - {e.work} == b.claims - {e.work};
    }
  }

  /** A holder renews; an agent needs its token for that, a person does not, and only the lease end changes. */
  lemma RenewedIff(b: Board, e: Event)
    requires e.ClaimWork?
    ensures var step := Apply(b, e);
      && (step.outcome.Renewed? <==>
            && e.work in b.claims && b.claims[e.work].actor == e.actor.id && b.claims[e.work].leaseUntil > e.now
            && (e.actor.kind.Agent? ==> e.token.Some? && b.claims[e.work].tokenHash == Some(Sha256(e.token.value))))
      && (step.outcome.Renewed? ==>
            && step.outcome.claim == b.claims[e.work].id
            && step.board == b.(claims := b.claims[e.work := b.claims[e.work].(leaseUntil := step.board.claims[e.work].leaseUntil)]))
  {
  }

  /** A claim lasts as many seconds as asked for, or two hours, from now. */
  lemma LeaseGiven(b: Board, e: Event)
    requires e.ClaimWork? && (Apply(b, e).outcome.Taken? || Apply(b, e).outcome.Renewed?)
    ensures e.work in Apply(b, e).board.claims
    ensures Apply(b, e).board.claims[e.work].leaseUntil
      == e.now + (if e.leaseSeconds.Some? && e.leaseSeconds.value >= 1 then 1000 * e.leaseSeconds.value else 7_200_000)
  {
  }

  /** A person releases any claim, an agent only its own while the lease is live and with its token; a reason is always given. */
  lemma ReleasedIff(b: Board, e: Event)
    requires e.Release?
    ensures var step := Apply(b, e);
      && (step.outcome.Released? <==>
            && e.hasReason && e.work in b.claims && !e.actor.kind.Service?
            && (e.actor.kind.Agent? ==>
                  && b.claims[e.work].actor == e.actor.id && b.claims[e.work].leaseUntil > e.now
                  && e.token.Some? && b.claims[e.work].tokenHash == Some(Sha256(e.token.value))))
      && (step.outcome.Released? ==> step.outcome.claim == b.claims[e.work].id && step.board.claims == b.claims - {e.work})
      && (!step.outcome.Released? ==> step.board == b)
  {
  }

  /** A sweep ends exactly a claim whose lease is over. */
  lemma SweptIff(b: Board, e: Event)
    requires e.Sweep?
    ensures var step := Apply(b, e);
      && (step.outcome.Swept? <==> e.work in b.claims && b.claims[e.work].leaseUntil <= e.now)
      && (step.outcome.Swept? ==> step.outcome.claim == b.claims[e.work].id && step.board.claims == b.claims - {e.work})
      && (!step.outcome.Swept? ==> step.board == b)
  {
  }

  /** The actor's own claim on the work counts for a report: while live, or for a person who reports the end of a run. */
  ghost predicate Counts(b: Board, work: WorkId, actor: Actor, status: Option<RunStatus>, now: Time) {
    && work in b.claims && b.claims[work].actor == actor.id
    && (b.claims[work].leaseUntil > now || (!actor.kind.Agent? && (status == Some(Completed) || status == Some(Failed))))
  }

  /** A report on a named run goes through exactly on an open run of the actor's, under its own counting claim, to a status that may follow. */
  lemma ReportRunIff(b: Board, e: Event)
    requires Inv(b) && e.ReportRun?
    ensures var step := Apply(b, e);
      && (step.outcome.RunWritten? <==>
            && e.run < |b.runs|
            && var r := b.runs[e.run];
            && r.actor == e.actor.id && (r.status.Queued? || r.status.Running? || r.status.Blocked?)
            && Counts(b, r.work, e.actor, e.status, e.now) && r.claim == Some(b.claims[r.work].id)
            && (e.actor.kind.Agent? ==> !r.revoked && e.token.Some? && b.claims[r.work].tokenHash == Some(Sha256(e.token.value)))
            && (e.status.Some? ==> e.status.value == r.status || !e.status.value.Queued?))
      && (step.outcome.RunWritten? ==>
            && step.outcome.run == e.run && |step.board.runs| == |b.runs|
            && step.board.runs[e.run].status == (if e.status.Some? then e.status.value else b.runs[e.run].status))
      && (!step.outcome.RunWritten? ==> step.board == b)
  {
    if e.run < |b.runs| {
      assert RunOk(b, b.runs[e.run]);
    }
  }

  /** A report that names no run opens one when the actor's claim has none open; without a claim that counts only a late completed run is filed. */
  lemma ReportWorkIff(b: Board, e: Event)
    requires e.ReportWork? && (forall i :: 0 <= i < |b.runs| && (b.runs[i].status.Queued? || b.runs[i].status.Running? || b.runs[i].status.Blocked?) ==>
      e.work !in b.claims || b.runs[i].claim != Some(b.claims[e.work].id))
    ensures var step := Apply(b, e);
      && (step.outcome.RunWritten? <==>
            if Counts(b, e.work, e.actor, e.status, e.now)
            then e.actor.kind.Agent? ==> e.token.Some? && b.claims[e.work].tokenHash == Some(Sha256(e.token.value))
            else e.late && e.status == Some(Completed)
                 && (e.work in b.claims ==> b.claims[e.work].actor == e.actor.id && b.claims[e.work].leaseUntil <= e.now))
      && (step.outcome.RunWritten? ==>
            && step.outcome.run == |b.runs| && |step.board.runs| == |b.runs| + 1
            && var r := step.board.runs[|b.runs|];
            && r.work == e.work && r.actor == e.actor.id && !r.revoked
            && r.status == (if e.status.Some? then e.status.value else Running)
            && (Counts(b, e.work, e.actor, e.status, e.now) ==> r.snapshot == Some(b.claims[e.work].id)))
      && (!step.outcome.RunWritten? ==> step.board == b)
  {
    if ActiveClaim(b, e.work, e.actor, e.status, e.now) {
      assert OpenRunOf(b.runs, b.claims[e.work].id).None?;
    }
  }

  /** And when its claim has one open, it writes to that run just as if it had named it. */
  lemma ReportRebinds(b: Board, e: Event, k: nat)
    requires Inv(b) && e.ReportWork? && Counts(b, e.work, e.actor, e.status, e.now) && k < |b.runs|
    requires b.runs[k].claim == Some(b.claims[e.work].id) && (b.runs[k].status.Queued? || b.runs[k].status.Running? || b.runs[k].status.Blocked?)
    ensures Apply(b, e) == Apply(b, ReportRun(k, e.actor, e.token, e.status, e.now))
  {
    assert RunOk(b, b.runs[k]);
    var open := OpenRunOf(b.runs, b.claims[e.work].id);
    assert IsOpenUnder(b.runs[k], b.claims[e.work].id);
    assert open == Some(k);
  }

  // ----------------------------------------------------------- runs of earlier takes

  /** No run of this work among the first n is open or unrevoked. */
  ghost predicate AllEnded(b: Board, work: WorkId, n: nat) {
    n <= |b.runs| && forall i :: 0 <= i < n && b.runs[i].work == work ==> !IsOpen(b.runs[i].status) && b.runs[i].revoked
  }

  /** After a fresh take no earlier run of that work is open or unrevoked, and its token was never used before. */
  lemma FreshTakeEndsRuns(b: Board, e: Event)
    requires Inv(b) && e.ClaimWork? && Apply(b, e).outcome.Taken?
    ensures var b' := Apply(b, e).board;
      && |b'.runs| == |b.runs| && AllEnded(b', e.work, |b'.runs|)
      && (forall w :: w in b.claims && b'.claims[e.work].tokenHash.Some? ==> b.claims[w].tokenHash != b'.claims[e.work].tokenHash)
      && (forall i :: 0 <= i < |b.runs| && b.runs[i].work != e.work ==>
            b'.runs[i].status == b.runs[i].status && b'.runs[i].revoked == b.runs[i].revoked)
      && (forall i :: 0 <= i < |b.runs| && b.runs[i].work == e.work ==>
            b'.runs[i].status == if b.runs[i].status.Completed? then Completed else Failed)
  {
  }

  /** A run keeps its work; once closed or revoked it stays so. */
  ghost predicate RunEvolves(r: Run, r': Run) {
    r'.work == r.work && (r.revoked ==> r'.revoked) && (!IsOpen(r.status) ==> !IsOpen(r'.status))
  }

  lemma ReportEvolvesRuns(b: Board, e: Event)
    requires e.ReportWork? || e.ReportRun?
    ensures var b' := Apply(b, e).board;
      |b.runs| <= |b'.runs| && forall i :: 0 <= i < |b.runs| ==> RunEvolves(b.runs[i], b'.runs[i])
  {
  }

  lemma StepEvolvesRuns(b: Board, e: Event)
    ensures var b' := Apply(b, e).board;
      |b.runs| <= |b'.runs| && forall i :: 0 <= i < |b.runs| ==> RunEvolves(b.runs[i], b'.runs[i])
  {
    if e.ReportWork? || e.ReportRun? {
      ReportEvolvesRuns(b, e);
    }
  }

  /** So the runs of earlier takes stay ended for good, whatever happens afterwards. */
  lemma {:induction false} EndedStaysEnded(b: Board, events: seq<Event>, work: WorkId, n: nat)
    requires AllEnded(b, work, n)
    ensures AllEnded(After(b, events), work, n)
    decreases |events|
  {
    if events != [] {
      var prefix := events[..|events| - 1];
      EndedStaysEnded(b, prefix, work, n);
      StepEvolvesRuns(After(b, prefix), events[|events| - 1]);
      var mid, end := After(b, prefix), After(b, events);
      forall i | 0 <= i < n && end.runs[i].work == work
        ensures !IsOpen(end.runs[i].status) && end.runs[i].revoked
      {
        assert RunEvolves(mid.runs[i], end.runs[i]);
      }
    }
  }

  /** After a release or an expiry no run opened under that claim is open or unrevoked, those that were have failed, and no other run moves. */
  lemma EndedClaimEndsRuns(b: Board, e: Event, i: nat)
    requires Inv(b) && i < |b.runs| && (Apply(b, e).outcome.Released? || Apply(b, e).outcome.Swept?)
    ensures var b' := Apply(b, e).board; e.work !in b'.claims && |b'.runs| == |b.runs|
    ensures var b' := Apply(b, e).board;
      if b.runs[i].snapshot == Some(Apply(b, e).outcome.claim)
      then b'.runs[i].revoked && b'.runs[i].status == (if b.runs[i].status.Completed? then Completed else Failed)
      else b'.runs[i] == b.runs[i]
  {
    assert RunOk(b, b.runs[i]);
  }

  /** A completed run filed after the lease ended, under no claim. */
  ghost predicate LateRun(b: Board, e: Event) {
    && e.ReportWork? && e.late && e.status == Some(Completed) && (e.work in b.claims ==> !Live(b.claims[e.work], e.now))
    && Apply(b, e).outcome == RunWritten(|b.runs|) && Apply(b, e).board.runs[|b.runs|].snapshot.None?
  }

  /** The run written is the holder's, under the claim it was opened under; completing it, and only that, deletes the claim. */
  ghost predicate WrittenByHolder(b: Board, e: Event, step: Step)
    requires (e.ReportWork? || e.ReportRun?) && step.outcome.RunWritten?
  {
    && step.outcome.run < |step.board.runs| && |b.runs| <= |step.board.runs| <= |b.runs| + 1
    && var r := step.board.runs[step.outcome.run];
    && (!LateRun(b, e) ==>
          && r.work in b.claims && b.claims[r.work].actor == e.actor.id && r.snapshot == Some(b.claims[r.work].id)
          && (e.actor.kind.Agent? ==> Live(b.claims[r.work], e.now) && TokenMatches(b.claims[r.work].tokenHash, e.token) && !r.revoked))
    && step.board.claims == (if r.status.Completed? then b.claims - {r.work} else b.claims)
    && (forall i :: 0 <= i < |b.runs| && i != step.outcome.run ==>
          step.board.runs[i].status == b.runs[i].status && step.board.runs[i].revoked == b.runs[i].revoked)
  }

  lemma NamedByHolder(b: Board, e: Event, step: Step)
    requires Inv(b) && e.ReportRun? && step == Apply(b, e) && step.outcome.RunWritten?
    ensures WrittenByHolder(b, e, step)
  {
    WriteEffects(b, e.run, e.actor, b.runs[e.run].tokenHash, e.token, e.status,
                 ActiveClaim(b, b.runs[e.run].work, e.actor, e.status, e.now) && b.runs[e.run].claim == Some(b.claims[b.runs[e.run].work].id));
  }

  lemma UnnamedByHolder(b: Board, e: Event, step: Step)
    requires Inv(b) && e.ReportWork? && step == Apply(b, e) && step.outcome.RunWritten?
    ensures WrittenByHolder(b, e, step)
  {
    if ActiveClaim(b, e.work, e.actor, e.status, e.now) {
      var c := b.claims[e.work];
      var open := OpenRunOf(b.runs, c.id);
      if open.Some? {
        var hash := b.runs[open.value].tokenHash;
        WriteEffects(b, open.value, e.actor, if hash.Some? then hash else c.tokenHash, e.token, e.status, true);
      }
    }
  }

  /**
   * But for a late one, a run is written only by the holder of the claim it was opened
   * under, an agent only under a live lease and with its token; completing it, and only
   * that, deletes the claim. No other run's status moves.
   */
  lemma OnlyTheHolderWrites(b: Board, e: Event)
    requires Inv(b) && Apply(b, e).outcome.RunWritten?
    ensures (e.ReportWork? || e.ReportRun?) && WrittenByHolder(b, e, Apply(b, e))
  {
    if e.ReportRun? {
      NamedByHolder(b, e, Apply(b, e));
    } else {
      UnnamedByHolder(b, e, Apply(b, e));
    }
  }

  lemma WriteEffects(b: Board, k: nat, actor: Actor, hash: Option<TokenHash>, token: Option<Token>, status: Option<RunStatus>, bound: bool)
    requires Inv(b) && k < |b.runs| && DoWrite(b, k, actor, hash, token, status, bound).outcome.RunWritten?
    ensures var step := DoWrite(b, k, actor, hash, token, status, bound);
      && RunOk(b, b.runs[k]) && bound && b.runs[k].actor == actor.id && IsOpen(b.runs[k].status)
      && (actor.kind.Agent? ==> TokenMatches(hash, token) && !b.runs[k].revoked)
      && step.outcome == RunWritten(k) && |step.board.runs| == |b.runs|
      && step.board.runs[k].status == status.GetOr(b.runs[k].status)
      && step.board.claims == (if step.board.runs[k].status.Completed? then b.claims - {b.runs[k].work} else b.claims)
      && (forall i :: 0 <= i < |b.runs| ==>
            && step.board.runs[i].work == b.runs[i].work && step.board.runs[i].snapshot == b.runs[i].snapshot
            && step.board.runs[i].revoked == b.runs[i].revoked && (i != k ==> step.board.runs[i].status == b.runs[i].status))
  {
    assert RunOk(b, b.runs[k]);
  }
}

module WorkBoard {
  import opened Wrappers
  import opened WorkClaims

  class WorkBoard {
    var claims: map<WorkId, Claim>
    var runs: seq<Run>
    var nextClaim: ClaimId
    var nextToken: Token

    ghost function Model(): Board
      reads this
    {
      Board(claims, runs, nextClaim, nextToken)
    }

    ghost predicate Valid()
      reads this
    {
      Inv(Model())
    }

    constructor ()
      ensures Valid() && Model() == EMPTY
    {
      claims, runs, nextClaim, nextToken := map[], [], 0, 0;
    }

    /** Drop an expired claim, then extend the actor's own or create a new one. */
    method UpsertWorkClaim(work: WorkId, actor: ActorId, hash: Option<TokenHash>, leaseUntil: Time, now: Time) returns (ok: bool)
      modifies this`claims, this`runs, this`nextClaim
      ensures ok <==> !(work in old(claims) && Live(old(claims[work]), now) && old(claims[work]).actor != actor)
      ensures !ok ==> Model() == old(Model())
      ensures ok && old(Holds(Model(), work, actor, now)) ==>
        Model() == old(Model()).(claims := old(claims)[work := old(claims[work]).(leaseUntil := leaseUntil)])
      ensures ok && !old(Holds(Model(), work, actor, now)) ==>
        Model() == old(Model()).(
          claims := old(claims)[work := Claim(old(nextClaim), actor, hash, leaseUntil)],
          runs := DetachedRuns(old(Model()), work),
          nextClaim := old(nextClaim) + 1)
    {
      if work in claims && claims[work].leaseUntil <= now {
        var stale := claims[work].id;
        runs := MapRuns(runs, r => Detached1(stale, r));
        claims := claims - {work};
        assert runs == DetachedRuns(old(Model()), work);
      }
      if work in claims {
        if claims[work].actor != actor {
          return false;
        }
        claims := claims[work := claims[work].(leaseUntil := leaseUntil)];
        return true;
      }
      claims := claims[work := Claim(nextClaim, actor, hash, leaseUntil)];
      nextClaim := nextClaim + 1;
      ok := true;
    }

    method TakeOrRenew(work: WorkId, actor: Actor, token: Option<Token>, leaseSeconds: Option<int>, ready: bool, now: Time)
      returns (outcome: Outcome)
      requires Valid()
      modifies this
      ensures Valid()
      ensures Step(Model(), outcome) == Apply(old(Model()), ClaimWork(work, actor, token, leaseSeconds, ready, now))
    {
      StepKeepsInv(Model(), ClaimWork(work, actor, token, leaseSeconds, ready, now));
      if work in claims && Live(claims[work], now) && claims[work].actor != actor.id {
        return Refused(AlreadyClaimed);
      }
      var renewing := work in claims && claims[work].actor == actor.id && Live(claims[work], now);
      if actor.kind.Agent? && renewing && !TokenMatches(claims[work].tokenHash, token) {
        return Refused(TokenRequired);
      }
      if !renewing && !ready {
        return Refused(NotReady);
      }
      var minted: Option<Token> := None;
      if !renewing {
        if actor.kind.Agent? {
          minted := Some(nextToken);
        }
        nextToken := nextToken + 1;
      }
      var claim := if renewing then claims[work].id else nextClaim;
      var hash := if minted.Some? then Some(Sha256(minted.value)) else None;
      var ok := UpsertWorkClaim(work, actor.id, hash, LeaseEnd(leaseSeconds, now), now);
      if !renewing {
        runs := MapRuns(runs, r => Superseded1(work, r));
        assert Model() == FreshTake(old(Model()), work, actor, LeaseEnd(leaseSeconds, now));
      }
      outcome := if renewing then Renewed(claim) else Taken(claim, minted);
    }

    /** Close the runs of a claim and delete it. */
    method End(work: WorkId)
      requires work in claims
      modifies this`claims, this`runs
      ensures Model() == EndClaim(old(Model()), work)
    {
      var id := claims[work].id;
      runs := MapRuns(runs, r => Ended1(work, id, r));
      claims := claims - {work};
      assert runs == EndClaim(old(Model()), work).runs;
    }

    method ReleaseClaim(work: WorkId, actor: Actor, token: Option<Token>, hasReason: bool, now: Time) returns (outcome: Outcome)
      requires Valid()
      modifies this
      ensures Valid()
      ensures Step(Model(), outcome) == Apply(old(Model()), Release(work, actor, token, hasReason, now))
    {
      StepKeepsInv(Model(), Release(work, actor, token, hasReason, now));
      if actor.kind.Service? {
        return Refused(Forbidden);
      }
      if !hasReason {
        return Refused(ReasonRequired);
      }
      if work !in claims {
        return Refused(NoClaim);
      }
      if actor.kind.Agent? {
        if claims[work].actor != actor.id || claims[work].leaseUntil <= now {
          return Refused(Forbidden);
        }
        if !TokenMatches(claims[work].tokenHash, token) {
          return Refused(TokenRequired);
        }
      }
      outcome := Released(claims[work].id);
      End(work);
    }

    /** Sweep one work if its lease has ended; one renewed meanwhile is left alone. */
    method SweepOne(work: WorkId, now: Time) returns (outcome: Outcome)
      requires Valid()
      modifies this
      ensures Valid()
      ensures Step(Model(), outcome) == Apply(old(Model()), Sweep(work, now))
      ensures claims == (if outcome.Swept? then old(claims) - {work} else old(claims)) && |runs| == |old(runs)|
    {
      StepKeepsInv(Model(), Sweep(work, now));
      if work !in claims {
        return Refused(NoClaim);
      }
      if claims[work].leaseUntil > now {
        return Refused(StillLive);
      }
      outcome := Swept(claims[work].id);
      End(work);
    }

    /** One work more of a sweep that has ended the claims of `gone`. */
    method SweepNext(work: WorkId, now: Time, ghost before: map<WorkId, Claim>, ghost gone: set<WorkId>) returns (ended: bool)
      requires Valid() && claims == before - gone && work !in gone
      modifies this
      ensures Valid() && |runs| == |old(runs)|
      ensures ended <==> work in before && !Live(before[work], now)
      ensures claims == before - (if ended then gone + {work} else gone)
    {
      var outcome := SweepOne(work, now);
      ended := outcome.Swept?;
      assert before - (gone + {work}) == (before - gone) - {work};
    }

    /** Sweep every work whose lease was seen to have ended: exactly the ended claims go, each counted once. */
    method SweepExpired(works: seq<WorkId>, now: Time) returns (swept: nat)
      requires Valid()
      requires forall j, k :: 0 <= j < k < |works| ==> works[j] != works[k]
      modifies this
      ensures Valid() && |runs| == |old(runs)|
      ensures claims == old(claims) - EndedAmong(old(claims), works, now) && swept == |EndedAmong(old(claims), works, now)|
    {
      swept := 0;
      ghost var before, runCount := claims, |runs|;
      ghost var gone: set<WorkId> := {};
      for k := 0 to |works|
        invariant Valid() && |runs| == runCount
        invariant gone == EndedAmong(before, works[..k], now) && swept == |gone| && claims == before - gone
      {
        EndedNext(before, works, k, now);
        var ended := SweepNext(works[k], now, before, gone);
        if ended {
          gone := gone + {works[k]};
          swept := swept + 1;
        }
      }
      assert works[..|works|] == works;
    }
  }

  /** The listed works whose claim is over. */
  ghost function EndedAmong(claims: map<WorkId, Claim>, works: seq<WorkId>, now: Time): set<WorkId> {
    set w | w in works && w in claims && !Live(claims[w], now)
  }

  lemma EndedNext(claims: map<WorkId, Claim>, works: seq<WorkId>, k: nat, now: Time)
    requires k < |works| && forall j :: 0 <= j < k ==> works[j] != works[k]
    ensures works[k] !in EndedAmong(claims, works[..k], now)
    ensures EndedAmong(claims, works[..k + 1], now)
      == EndedAmong(claims, works[..k], now) + (if works[k] in claims && !Live(claims[works[k]], now) then {works[k]} else {})
  {
    assert works[..k + 1] == works[..k] + [works[k]];
  }
}
