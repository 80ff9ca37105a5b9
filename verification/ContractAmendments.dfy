/**
 * Contract amendments: an agent's proposed fix to a committed contract as data,
 * accepted or rejected by a person or the autonomy gate, and taken back by a person.
 */
module AmendmentModel {
  import opened Wrappers
  import opened Text

  datatype Field = Acceptance | Constraints | Outcome | Scope | Verification

  const CONTRACT_FIELDS := [Acceptance, Constraints, Outcome, Scope, Verification]

  type WorkId = nat
  type AmendmentId = nat

  type Values = map<Field, Option<string>>

  // Every contract has all five fields; a missing value is None.
  type Contract = c: Values | forall f: Field :: f in c witness BlankContract()

  const BLANK: Values := map[Acceptance := None, Constraints := None, Outcome := None, Scope := None, Verification := None]

  lemma BlankHas(f: Field)
    ensures f in BLANK && BLANK[f].None?
  {
    match f
    case Acceptance =>
    case Constraints =>
    case Outcome =>
    case Scope =>
    case Verification =>
  }

  lemma BlankHasAll()
    ensures forall f: Field :: f in BLANK && BLANK[f].None?
  {
    forall f: Field
      ensures f in BLANK && BLANK[f].None?
    {
      BlankHas(f);
    }
  }

  function BlankContract(): (c: Values)
    ensures forall f: Field :: f in c && c[f].None?
  {
    BlankHasAll();
    BLANK
  }

  datatype Status = Pending | Accepted | Rejected | Superseded

  datatype Decider = Person | AutonomyGate

  datatype Amendment = Amendment(work: WorkId, before: Values, changes: Values, status: Status, decidedBy: Option<Decider>)

  datatype Work = Work(committed: bool, contract: Contract)

  datatype Desk = Desk(works: seq<Work>, amendments: seq<Amendment>)

  datatype Refusal = NotFound | AgentsOnly | HumanOnly | NotCommitted | NoFields | AcceptanceRequired | ReasonRequired | NoChange | AlreadyDecided | Stale | NotAutomatic

  datatype Result = Refused(why: Refusal) | Done(id: AmendmentId)

  datatype Step = Step(desk: Desk, result: Result)

  datatype ActorKind = Human | Agent | Service

  datatype Event =
    | Propose(work: WorkId, requested: Values, reason: string, actor: ActorKind)
    | Accept(id: AmendmentId, decider: Decider)
    | Reject(id: AmendmentId, actor: ActorKind, note: string)
    | Reopen(id: AmendmentId, actor: ActorKind, reason: string)
    | Edit(work: WorkId, values: Values)
    | Commit(work: WorkId)

  function Clean(v: Values): Values { map f | f in v :: Normalize(v[f]) }

  /** The fields of a request that differ from the contract, with the value each replaces. */
  function Touched(c: Contract, requested: Values): set<Field> {
    set f | f in requested && Normalize(requested[f]) != Normalize(c[f])
  }

  function ChangesOf(c: Contract, requested: Values): Values { map f | f in Touched(c, requested) :: Normalize(requested[f]) }

  function BeforeOf(c: Contract, requested: Values): Values { map f | f in Touched(c, requested) :: Normalize(c[f]) }

  /** isAmendmentStale: some touched field no longer holds the value it was proposed against. */
  predicate IsStale(a: Amendment, c: Contract) {
    exists f :: f in a.before && Normalize(c[f]) != a.before[f]
  }

  /** updateIssue on contract fields: overwrite each with its normalised value. */
  function Write(c: Contract, values: Values): Contract { c + Clean(values) }

  /** Every pending amendment of the work is superseded. */
  function Supersede(amendments: seq<Amendment>, work: WorkId): (r: seq<Amendment>)
    ensures |r| == |amendments|
    ensures forall i :: 0 <= i < |r| ==>
      r[i] == (if amendments[i].work == work && amendments[i].status.Pending? then amendments[i].(status := Superseded) else amendments[i])
  {
    seq(|amendments|, i requires 0 <= i < |amendments| =>
      if amendments[i].work == work && amendments[i].status.Pending? then amendments[i].(status := Superseded) else amendments[i])
  }

  function DoPropose(d: Desk, work: WorkId, requested: Values, reason: string, actor: ActorKind): Step {
    if actor.Human? then Step(d, Refused(AgentsOnly))
    else if requested == map[] then Step(d, Refused(NoFields))
    else if Blank(reason) then Step(d, Refused(ReasonRequired))
    else if Acceptance in requested && Normalize(requested[Acceptance]).None? then Step(d, Refused(AcceptanceRequired))
    else if work >= |d.works| then Step(d, Refused(NotFound))
    else if !d.works[work].committed then Step(d, Refused(NotCommitted))
    else
      var c := d.works[work].contract;
      if Touched(c, requested) == {} then Step(d, Refused(NoChange))
      else
        var a := Amendment(work, BeforeOf(c, requested), ChangesOf(c, requested), Pending, None);
        Step(d.(amendments := Supersede(d.amendments, work) + [a]), Done(|d.amendments|))
  }

  function DoAccept(d: Desk, id: AmendmentId, decider: Decider): Step {
    if id >= |d.amendments| then Step(d, Refused(NotFound))
    else
      var a := d.amendments[id];
      if a.work >= |d.works| then Step(d, Refused(NotFound))
      else if !a.status.Pending? then Step(d, Refused(AlreadyDecided))
      else if IsStale(a, d.works[a.work].contract) then Step(d, Refused(Stale))
      else
        var w := d.works[a.work];
        Step(Desk(d.works[a.work := w.(contract := Write(w.contract, a.changes))],
                  d.amendments[id := a.(status := Accepted, decidedBy := Some(decider))]),
             Done(id))
  }

  function DoReject(d: Desk, id: AmendmentId, actor: ActorKind, note: string): Step {
    if !actor.Human? then Step(d, Refused(HumanOnly))
    else if Blank(note) then Step(d, Refused(ReasonRequired))
    else if id >= |d.amendments| then Step(d, Refused(NotFound))
    else if !d.amendments[id].status.Pending? then Step(d, Refused(AlreadyDecided))
    else Step(d.(amendments := d.amendments[id := d.amendments[id].(status := Rejected, decidedBy := Some(Person))]), Done(id))
  }

  /** A person takes back what the gate accepted: the fields return to their before values and a pending copy waits. */
  function DoReopen(d: Desk, id: AmendmentId, actor: ActorKind, reason: string): Step {
    if !actor.Human? then Step(d, Refused(HumanOnly))
    else if Blank(reason) then Step(d, Refused(ReasonRequired))
    else if id >= |d.amendments| then Step(d, Refused(NotFound))
    else
      var a := d.amendments[id];
      if a.work >= |d.works| then Step(d, Refused(NotFound))
      else if !a.status.Accepted? || a.decidedBy != Some(AutonomyGate) then Step(d, Refused(NotAutomatic))
      else
        var w := d.works[a.work];
        var copy := Amendment(a.work, a.before, a.changes, Pending, None);
        Step(Desk(d.works[a.work := w.(contract := Write(w.contract, a.before))], Supersede(d.amendments, a.work) + [copy]),
             Done(|d.amendments|))
  }

  function Apply(d: Desk, e: Event): Step {
    match e
    case Propose(work, requested, reason, actor) => DoPropose(d, work, requested, reason, actor)
    case Accept(id, decider) => DoAccept(d, id, decider)
    case Reject(id, actor, note) => DoReject(d, id, actor, note)
    case Reopen(id, actor, reason) => DoReopen(d, id, actor, reason)
    case Edit(work, values) =>
      if work >= |d.works| then Step(d, Refused(NotFound))
      else Step(d.(works := d.works[work := d.works[work].(contract := Write(d.works[work].contract, values))]), Done(0))
    case Commit(work) =>
      if work >= |d.works| then Step(d, Refused(NotFound))
      else Step(d.(works := d.works[work := d.works[work].(committed := true)]), Done(0))
  }

  function After(d: Desk, events: seq<Event>): Desk {
    if events == [] then d else Apply(After(d, events[..|events| - 1]), events[|events| - 1]).desk
  }
}

/** What every run of proposals, decisions and edits keeps. */
module AmendmentTheorems {
  import opened Wrappers
  import opened Text
  import opened AmendmentModel

  ghost predicate AmendmentOk(d: Desk, a: Amendment) {
    && a.work < |d.works| && a.before.Keys == a.changes.Keys && a.changes != map[]
    && (forall f :: f in a.before ==> Normalize(a.before[f]) == a.before[f] && Normalize(a.changes[f]) == a.changes[f])
    && (forall f :: f in a.before ==> a.before[f] != a.changes[f])
  }

  ghost predicate OnePending(amendments: seq<Amendment>) {
    forall i, j :: 0 <= i < j < |amendments| && amendments[i].status.Pending? && amendments[j].status.Pending? ==>
      amendments[i].work != amendments[j].work
  }

  /** At most one pending amendment per work, and every amendment records normalised, genuinely different values. */
  ghost predicate Inv(d: Desk) {
    OnePending(d.amendments) && forall i :: 0 <= i < |d.amendments| ==> AmendmentOk(d, d.amendments[i])
  }

  /** An amendment keeps its content; once decided it keeps its status and decider too. */
  ghost predicate AmendmentEvolves(a: Amendment, a': Amendment) {
    && a'.work == a.work && a'.before == a.before && a'.changes == a.changes
    && (!a.status.Pending? ==> a' == a)
  }

  ghost predicate Evolves(d: Desk, d': Desk) {
    && |d'.works| == |d.works| && |d.amendments| <= |d'.amendments|
    && forall i :: 0 <= i < |d.amendments| ==> AmendmentEvolves(d.amendments[i], d'.amendments[i])
  }

  lemma SupersedeThenAdd(d: Desk, works: seq<Work>, a: Amendment)
    requires Inv(d) && |works| == |d.works| && a.status.Pending?
    requires AmendmentOk(Desk(works, []), a)
    ensures Inv(Desk(works, Supersede(d.amendments, a.work) + [a])) && Evolves(d, Desk(works, Supersede(d.amendments, a.work) + [a]))
  {
    var d' := Desk(works, Supersede(d.amendments, a.work) + [a]);
    forall i | 0 <= i < |d'.amendments|
      ensures AmendmentOk(d', d'.amendments[i])
    {
      if i < |d.amendments| {
        assert AmendmentOk(d, d.amendments[i]);
      }
    }
  }

  lemma ProposalOk(works: seq<Work>, work: WorkId, requested: Values)
    requires work < |works| && Touched(works[work].contract, requested) != {}
    ensures var c := works[work].contract;
      AmendmentOk(Desk(works, []), Amendment(work, BeforeOf(c, requested), ChangesOf(c, requested), Pending, None))
  {
    var c := works[work].contract;
    forall f | f in Touched(c, requested)
      ensures Normalize(Normalize(c[f])) == Normalize(c[f]) && Normalize(Normalize(requested[f])) == Normalize(requested[f])
    {
      NormalizeIdempotent(c[f]);
      NormalizeIdempotent(requested[f]);
    }
    var f :| f in Touched(c, requested);
    assert f in ChangesOf(c, requested);
  }

  /** Steps that only move one amendment's status, or none, and rewrite contracts. */
  lemma StatusMoves(d: Desk, d': Desk)
    requires Inv(d) && |d'.works| == |d.works| && |d'.amendments| == |d.amendments|
    requires forall i :: 0 <= i < |d.amendments| ==>
      AmendmentEvolves(d.amendments[i], d'.amendments[i]) && (d'.amendments[i].status.Pending? ==> d.amendments[i].status.Pending?)
    ensures Inv(d') && Evolves(d, d')
  {
    forall i | 0 <= i < |d'.amendments|
      ensures AmendmentOk(d', d'.amendments[i])
    {
      assert AmendmentOk(d, d.amendments[i]) && AmendmentEvolves(d.amendments[i], d'.amendments[i]);
    }
    forall i, j | 0 <= i < j < |d'.amendments| && d'.amendments[i].status.Pending? && d'.amendments[j].status.Pending?
      ensures d'.amendments[i].work != d'.amendments[j].work
    {
      assert AmendmentEvolves(d.amendments[i], d'.amendments[i]) && AmendmentEvolves(d.amendments[j], d'.amendments[j]);
    }
  }

  lemma ProposeKeeps(d: Desk, work: WorkId, requested: Values, reason: string, actor: ActorKind)
    requires Inv(d)
    ensures var d' := DoPropose(d, work, requested, reason, actor).desk; Inv(d') && Evolves(d, d')
  {
    var step := DoPropose(d, work, requested, reason, actor);
    if step.result.Done? {
      ProposalOk(d.works, work, requested);
      SupersedeThenAdd(d, d.works, step.desk.amendments[|d.amendments|]);
    }
  }

  lemma ReopenKeeps(d: Desk, id: AmendmentId, actor: ActorKind, reason: string)
    requires Inv(d)
    ensures var d' := DoReopen(d, id, actor, reason).desk; Inv(d') && Evolves(d, d')
  {
    var step := DoReopen(d, id, actor, reason);
    if step.result.Done? {
      assert AmendmentOk(d, d.amendments[id]);
      SupersedeThenAdd(d, step.desk.works, step.desk.amendments[|d.amendments|]);
    }
  }

  lemma StepKeeps(d: Desk, e: Event)
    requires Inv(d)
    ensures Inv(Apply(d, e).desk) && Evolves(d, Apply(d, e).desk)
  {
    match e
    case Propose(work, requested, reason, actor) => ProposeKeeps(d, work, requested, reason, actor);
    case Reopen(id, actor, reason) => ReopenKeeps(d, id, actor, reason);
    case Accept(id, decider) => StatusMoves(d, DoAccept(d, id, decider).desk);
    case Reject(id, actor, note) => StatusMoves(d, DoReject(d, id, actor, note).desk);
    case Edit(work, values) => StatusMoves(d, Apply(d, e).desk);
    case Commit(work) => StatusMoves(d, Apply(d, e).desk);
  }

  lemma EvolvesTransitive(a: Desk, b: Desk, c: Desk)
    requires Evolves(a, b) && Evolves(b, c)
    ensures Evolves(a, c)
  {
    forall i | 0 <= i < |a.amendments|
      ensures AmendmentEvolves(a.amendments[i], c.amendments[i])
    {
      assert AmendmentEvolves(a.amendments[i], b.amendments[i]) && AmendmentEvolves(b.amendments[i], c.amendments[i]);
    }
  }

  /** In every reachable state a work has at most one pending amendment, and no decided amendment ever changes. */
  lemma {:induction false} RunKeeps(d: Desk, events: seq<Event>)
    requires Inv(d)
    ensures Inv(After(d, events)) && Evolves(d, After(d, events))
    decreases |events|
  {
    if events != [] {
      var mid := After(d, events[..|events| - 1]);
      RunKeeps(d, events[..|events| - 1]);
      StepKeeps(mid, events[|events| - 1]);
      EvolvesTransitive(d, mid, After(d, events));
    }
  }

  /** What a contract says once blanks are normalised away. */
  ghost predicate SameTerms(c: Contract, c': Contract) { forall f: Field :: Normalize(c'[f]) == Normalize(c[f]) }

  /** The contracts agree, normalised, on every field an amendment leaves alone. */
  ghost predicate SameElsewhere(touched: Values, c: Contract, c': Contract) {
    forall f: Field :: f !in touched ==> Normalize(c'[f]) == Normalize(c[f])
  }

  lemma WriteReads(c: Contract, values: Values, f: Field)
    ensures Write(c, values)[f] == (if f in values then Normalize(values[f]) else c[f])
  {
  }

  /** Acceptance changes exactly the touched fields, each from its recorded before value to the proposed one, on that work alone. */
  lemma AcceptChangesExactly(d: Desk, id: AmendmentId, decider: Decider)
    requires Inv(d)
    ensures Apply(d, Accept(id, decider)).result.Done? <==>
      id < |d.amendments| && d.amendments[id].status.Pending? && !IsStale(d.amendments[id], d.works[d.amendments[id].work].contract)
    ensures Apply(d, Accept(id, decider)).result.Done? ==>
      var d' := Apply(d, Accept(id, decider)).desk; var a := d.amendments[id];
      var c, c' := d.works[a.work].contract, d'.works[a.work].contract;
      && (forall f: Field :: f in a.changes ==> Normalize(c[f]) == a.before[f] && c'[f] == a.changes[f] && c'[f] != Normalize(c[f]))
      && (forall f: Field :: f !in a.changes ==> c'[f] == c[f])
      && (forall w :: 0 <= w < |d.works| && w != a.work ==> d'.works[w] == d.works[w])
      && d'.amendments == d.amendments[id := a.(status := Accepted, decidedBy := Some(decider))]
  {
    if id < |d.amendments| {
      assert AmendmentOk(d, d.amendments[id]);
    }
  }

  /** Some requested field would change the contract once blanks are normalised away. */
  ghost predicate WouldChange(c: Contract, requested: Values) {
    exists f :: f in requested && Normalize(requested[f]) != Normalize(c[f])
  }

  /** An agent or a service may propose a reasoned change to a committed contract, one that changes it and leaves it an acceptance. */
  lemma ProposeIff(d: Desk, work: WorkId, requested: Values, reason: string, actor: ActorKind)
    ensures var step := Apply(d, Propose(work, requested, reason, actor));
      && (step.result.Done? <==>
            && !actor.Human? && !Blank(reason) && (Acceptance in requested ==> Normalize(requested[Acceptance]).Some?)
            && work < |d.works| && d.works[work].committed && WouldChange(d.works[work].contract, requested))
      && (!step.result.Done? ==> step.desk == d)
  {
    if work < |d.works| {
      assert Touched(d.works[work].contract, requested) != {} ==> requested != map[];
      if WouldChange(d.works[work].contract, requested) {
        var f :| f in requested && Normalize(requested[f]) != Normalize(d.works[work].contract[f]);
        assert f in Touched(d.works[work].contract, requested);
      }
    }
  }

  /** What a proposal records: exactly the fields that would change, with the value each has and the value each is to get; whatever was pending on the work gives way. */
  lemma ProposalRecords(d: Desk, work: WorkId, requested: Values, reason: string, actor: ActorKind, step: Step)
    requires step == Apply(d, Propose(work, requested, reason, actor)) && step.result.Done?
    ensures work < |d.works| && step.result == Done(|d.amendments|) && |step.desk.amendments| == |d.amendments| + 1 && step.desk.works == d.works
    ensures var c := d.works[work].contract; var a := step.desk.amendments[|d.amendments|];
      && a.work == work && a.status.Pending? && a.decidedBy.None?
      && (forall f: Field :: f in a.before <==> f in requested && Normalize(requested[f]) != Normalize(c[f]))
      && (forall f: Field :: f in a.changes <==> f in requested && Normalize(requested[f]) != Normalize(c[f]))
      && (forall f: Field :: f in a.before ==> a.before[f] == Normalize(c[f]) && a.changes[f] == Normalize(requested[f]))
    ensures forall k :: 0 <= k < |d.amendments| ==>
      step.desk.amendments[k] ==
      if d.amendments[k].work == work && d.amendments[k].status.Pending? then d.amendments[k].(status := Superseded) else d.amendments[k]
  {
  }

  /** A proposal accepted at once goes through and leaves every requested field saying what was requested, the others as they were. */
  lemma ProposeThenAccept(d: Desk, work: WorkId, requested: Values, reason: string, actor: ActorKind, decider: Decider, proposed: Step, accepted: Step)
    requires Inv(d) && proposed == Apply(d, Propose(work, requested, reason, actor)) && proposed.result.Done?
    requires accepted == Apply(proposed.desk, Accept(|d.amendments|, decider))
    ensures accepted.result.Done? && work < |d.works| == |accepted.desk.works|
    ensures forall f: Field ::
      if f in requested then Normalize(accepted.desk.works[work].contract[f]) == Normalize(requested[f])
      else accepted.desk.works[work].contract[f] == d.works[work].contract[f]
    ensures forall w :: 0 <= w < |d.works| && w != work ==> accepted.desk.works[w] == d.works[w]
  {
    StepKeeps(d, Propose(work, requested, reason, actor));
    ProposalRecords(d, work, requested, reason, actor, proposed);
    AcceptChangesExactly(proposed.desk, |d.amendments|, decider);
    forall f: Field | f in requested
      ensures Normalize(accepted.desk.works[work].contract[f]) == Normalize(requested[f])
    {
      NormalizeIdempotent(requested[f]);
    }
  }

  /** A person turns down what is pending, with a note; it is then rejected by a person and the contracts stand. */
  lemma RejectIff(d: Desk, id: AmendmentId, actor: ActorKind, note: string)
    ensures var step := Apply(d, Reject(id, actor, note));
      && (step.result.Done? <==> actor.Human? && !Blank(note) && id < |d.amendments| && d.amendments[id].status.Pending?)
      && (step.result.Done? ==>
            && step.desk.works == d.works
            && step.desk.amendments == d.amendments[id := d.amendments[id].(status := Rejected, decidedBy := Some(Person))])
      && (!step.result.Done? ==> step.desk == d)
  {
  }

  /** A person, with a reason, takes back what the gate accepted, and nothing else. */
  lemma ReopenIff(d: Desk, id: AmendmentId, actor: ActorKind, reason: string)
    requires Inv(d)
    ensures var step := Apply(d, Reopen(id, actor, reason));
      && (step.result.Done? <==>
            actor.Human? && !Blank(reason) && id < |d.amendments| && d.amendments[id].status.Accepted? && d.amendments[id].decidedBy == Some(AutonomyGate))
      && (!step.result.Done? ==> step.desk == d)
  {
    if id < |d.amendments| {
      assert AmendmentOk(d, d.amendments[id]);
    }
  }

  /** Writing an amendment's before values: it is then not stale, and only the fields it leaves alone can differ. */
  lemma WriteBack(a: Amendment, c0: Contract, c1: Contract)
    requires forall f :: f in a.before ==> Normalize(a.before[f]) == a.before[f] && a.before[f] == Normalize(c0[f])
    ensures !IsStale(a, Write(c1, a.before))
    ensures SameTerms(c0, Write(c1, a.before)) <==> SameElsewhere(a.before, c0, c1)
  {
    var c2 := Write(c1, a.before);
    forall f: Field
      ensures c2[f] == if f in a.before then a.before[f] else c1[f]
    {
      WriteReads(c1, a.before, f);
    }
    if SameTerms(c0, c2) {
      forall f: Field | f !in a.before
        ensures Normalize(c1[f]) == Normalize(c0[f])
      {
        assert Normalize(c2[f]) == Normalize(c0[f]);
      }
    }
  }

  /** d1 is where a run stands that began with the gate accepting the amendment in d0. */
  ghost predicate GateAccepted(d0: Desk, id: AmendmentId, between: seq<Event>, d1: Desk) {
    Apply(d0, Accept(id, AutonomyGate)).result.Done? && d1 == After(Apply(d0, Accept(id, AutonomyGate)).desk, between)
  }

  /** What the gate accepted is still there, decided by the gate, after anything that follows. */
  lemma GateAcceptanceStands(d0: Desk, id: AmendmentId, between: seq<Event>, d1: Desk)
    requires Inv(d0) && GateAccepted(d0, id, between, d1)
    ensures Inv(d1) && id < |d0.amendments| && id < |d1.amendments| && |d1.works| == |d0.works|
    ensures d1.amendments[id] == d0.amendments[id].(status := Accepted, decidedBy := Some(AutonomyGate))
  {
    StepKeeps(d0, Accept(id, AutonomyGate));
    var accepted := Apply(d0, Accept(id, AutonomyGate)).desk;
    RunKeeps(accepted, between);
    assert AmendmentEvolves(accepted.amendments[id], d1.amendments[id]);
  }

  /** Acceptance found the before values in the contract. */
  lemma AcceptedFromBefore(d0: Desk, id: AmendmentId, a: Amendment)
    requires Inv(d0) && id < |d0.amendments| && a == d0.amendments[id] && Apply(d0, Accept(id, AutonomyGate)).result.Done?
    ensures a.work < |d0.works|
    ensures forall f :: f in a.before ==> Normalize(a.before[f]) == a.before[f] && a.before[f] == Normalize(d0.works[a.work].contract[f])
  {
    assert AmendmentOk(d0, a);
  }

  lemma ReopenStep(d: Desk, id: AmendmentId, reason: string, step: Step)
    requires Inv(d) && id < |d.amendments| && !Blank(reason) && step == Apply(d, Reopen(id, Human, reason))
    requires d.amendments[id].status.Accepted? && d.amendments[id].decidedBy == Some(AutonomyGate)
    ensures var a := d.amendments[id];
      && step.result == Done(|d.amendments|) && a.work < |d.works| == |step.desk.works|
      && |step.desk.amendments| == |d.amendments| + 1
      && step.desk.amendments[|d.amendments|] == Amendment(a.work, a.before, a.changes, Pending, None)
      && step.desk.works[a.work].contract == Write(d.works[a.work].contract, a.before)
  {
    assert AmendmentOk(d, d.amendments[id]);
  }

  /** The last amendment is a pending copy of `a`, and not stale. */
  ghost predicate PendingCopyWaits(d: Desk, a: Amendment) {
    && d.amendments != [] && a.work < |d.works|
    && var copy := d.amendments[|d.amendments| - 1];
    copy == Amendment(a.work, a.before, a.changes, Pending, None) && !IsStale(copy, d.works[a.work].contract)
  }

  /** A desk on which the before values were written back and a copy waits. */
  lemma ReopenedDesk(d: Desk, a: Amendment, c0: Contract, c1: Contract)
    requires a.work < |d.works| && d.works[a.work].contract == Write(c1, a.before)
    requires d.amendments != [] && d.amendments[|d.amendments| - 1] == Amendment(a.work, a.before, a.changes, Pending, None)
    requires forall f :: f in a.before ==> Normalize(a.before[f]) == a.before[f] && a.before[f] == Normalize(c0[f])
    ensures PendingCopyWaits(d, a)
    ensures SameTerms(c0, d.works[a.work].contract) <==> SameElsewhere(a.before, c0, c1)
  {
    WriteBack(Amendment(a.work, a.before, a.changes, Pending, None), c0, c1);
  }

  /** Reopening an amendment whose before values a contract once held. */
  lemma ReopenAgainst(d: Desk, id: AmendmentId, a: Amendment, c0: Contract, reason: string, step: Step)
    requires Inv(d) && id < |d.amendments| && !Blank(reason) && step == Apply(d, Reopen(id, Human, reason))
    requires d.amendments[id] == a && a.status.Accepted? && a.decidedBy == Some(AutonomyGate)
    requires forall f :: f in a.before ==> Normalize(a.before[f]) == a.before[f] && a.before[f] == Normalize(c0[f])
    ensures step.result.Done? && a.work < |d.works| == |step.desk.works| && PendingCopyWaits(step.desk, a)
    ensures SameTerms(c0, step.desk.works[a.work].contract) <==> SameElsewhere(a.before, c0, d.works[a.work].contract)
  {
    ReopenStep(d, id, reason, step);
    ReopenedDesk(step.desk, a, c0, d.works[a.work].contract);
  }

  /**
   * Reopening what the gate accepted: the pending copy is never stale, whatever was
   * edited in between, and the contract is back to what it said at acceptance exactly
   * when every field the amendment leaves alone still says the same.
   */
  lemma ReopenRestoresIff(d0: Desk, id: AmendmentId, between: seq<Event>, d1: Desk, reason: string, step: Step)
    requires Inv(d0) && GateAccepted(d0, id, between, d1) && !Blank(reason) && step == Apply(d1, Reopen(id, Human, reason))
    ensures step.result.Done? && id < |d0.amendments|
    ensures var a := d0.amendments[id];
      && a.work < |d0.works| == |d1.works| == |step.desk.works| && PendingCopyWaits(step.desk, a)
      && (SameTerms(d0.works[a.work].contract, step.desk.works[a.work].contract)
          <==> SameElsewhere(a.before, d0.works[a.work].contract, d1.works[a.work].contract))
  {
    GateAcceptanceStands(d0, id, between, d1);
    var a := d0.amendments[id];
    AcceptedFromBefore(d0, id, a);
    ReopenAgainst(d1, id, d1.amendments[id], d0.works[a.work].contract, reason, step);
  }

  /** With no edits in between, reopening restores the normalised contract outright. */
  lemma ReopenAtOnceRestores(d0: Desk, id: AmendmentId, d1: Desk, reason: string, step: Step)
    requires Inv(d0) && Apply(d0, Accept(id, AutonomyGate)).result.Done? && d1 == Apply(d0, Accept(id, AutonomyGate)).desk
    requires !Blank(reason) && step == Apply(d1, Reopen(id, Human, reason))
    ensures step.result.Done? && id < |d0.amendments|
    ensures var a := d0.amendments[id];
      && a.work < |d0.works| == |step.desk.works| && PendingCopyWaits(step.desk, a)
      && SameTerms(d0.works[a.work].contract, step.desk.works[a.work].contract)
  {
    ReopenRestoresIff(d0, id, [], d1, reason, step);
    AcceptChangesExactly(d0, id, AutonomyGate);
  }
}

/** The amendment desk as the service updates it. */
module AmendmentDesk {
  import opened Wrappers
  import opened Text
  import opened AmendmentModel
  import opened AmendmentTheorems

  lemma FieldsListed()
    ensures forall f: Field :: f in CONTRACT_FIELDS
  {
    forall f: Field
      ensures f in CONTRACT_FIELDS
    {
      match f
      case Acceptance => assert CONTRACT_FIELDS[0] == f;
      case Constraints => assert CONTRACT_FIELDS[1] == f;
      case Outcome => assert CONTRACT_FIELDS[2] == f;
      case Scope => assert CONTRACT_FIELDS[3] == f;
      case Verification => assert CONTRACT_FIELDS[4] == f;
    }
  }

  class AmendmentDesk {
    var works: seq<Work>
    var amendments: seq<Amendment>

    ghost function Model(): Desk
      reads this
    {
      Desk(works, amendments)
    }

    ghost predicate Valid()
      reads this
    {
      Inv(Model())
    }

    constructor (works: seq<Work>)
      ensures Valid() && Model() == Desk(works, [])
    {
      this.works, amendments := works, [];
    }

    /** The requested fields that really change, each with the value it replaces. */
    method Differences(fields: seq<Field>, c: Contract, requested: Values) returns (changes: Values, before: Values)
      requires forall f: Field :: f in fields
      ensures changes == ChangesOf(c, requested) && before == BeforeOf(c, requested)
    {
      changes, before := map[], map[];
      for n := 0 to |fields|
        invariant forall f :: f in changes <==> f in fields[..n] && f in Touched(c, requested)
        invariant forall f :: f in before <==> f in changes
        invariant forall f :: f in changes ==> changes[f] == Normalize(requested[f]) && before[f] == Normalize(c[f])
      {
        var field := fields[n];
        assert fields[..n + 1] == fields[..n] + [field];
        if field in requested {
          var current := Normalize(c[field]);
          if Normalize(requested[field]) != current {
            changes := changes[field := Normalize(requested[field])];
            before := before[field := current];
          }
        }
      }
      assert fields[..|fields|] == fields;
    }

    /** One open amendment per item: whatever is pending gives way. */
    method SupersedePending(work: WorkId)
      modifies this`amendments
      ensures amendments == Supersede(old(amendments), work)
    {
      for i := 0 to |amendments|
        invariant |amendments| == |old(amendments)|
        invariant forall j :: 0 <= j < i ==> amendments[j] == Supersede(old(amendments), work)[j]
        invariant forall j :: i <= j < |amendments| ==> amendments[j] == old(amendments)[j]
      {
        if amendments[i].work == work && amendments[i].status.Pending? {
          amendments := amendments[i := amendments[i].(status := Superseded)];
        }
      }
    }

    method ProposeAmendment(work: WorkId, requested: Values, reason: string, actor: ActorKind) returns (r: Result)
      requires Valid()
      modifies this
      ensures Valid()
      ensures Step(Model(), r) == Apply(old(Model()), Propose(work, requested, reason, actor))
    {
      StepKeeps(Model(), Propose(work, requested, reason, actor));
      if actor.Human? {
        return Refused(AgentsOnly);
      }
      if requested == map[] {
        return Refused(NoFields);
      }
      if Blank(reason) {
        return Refused(ReasonRequired);
      }
      if Acceptance in requested && Normalize(requested[Acceptance]).None? {
        return Refused(AcceptanceRequired);
      }
      if work >= |works| {
        return Refused(NotFound);
      }
      if !works[work].committed {
        return Refused(NotCommitted);
      }
      FieldsListed();
      var changes, before := Differences(CONTRACT_FIELDS, works[work].contract, requested);
      assert changes.Keys == Touched(works[work].contract, requested);
      if changes == map[] {
        return Refused(NoChange);
      }
      r := Done(|amendments|);
      SupersedePending(work);
      amendments := amendments + [Amendment(work, before, changes, Pending, None)];
    }

    method AcceptAmendment(id: AmendmentId, decider: Decider) returns (r: Result)
      requires Valid()
      modifies this
      ensures Valid()
      ensures Step(Model(), r) == Apply(old(Model()), Accept(id, decider))
    {
      StepKeeps(Model(), Accept(id, decider));
      if id >= |amendments| || amendments[id].work >= |works| {
        return Refused(NotFound);
      }
      var a := amendments[id];
      if !a.status.Pending? {
        return Refused(AlreadyDecided);
      }
      if IsStale(a, works[a.work].contract) {
        return Refused(Stale);
      }
      amendments := amendments[id := a.(status := Accepted, decidedBy := Some(decider))];
      works := works[a.work := works[a.work].(contract := Write(works[a.work].contract, a.changes))];
      r := Done(id);
    }

    method RejectAmendment(id: AmendmentId, actor: ActorKind, note: string) returns (r: Result)
      requires Valid()
      modifies this`amendments
      ensures Valid()
      ensures Step(Model(), r) == Apply(old(Model()), Reject(id, actor, note))
    {
      StepKeeps(Model(), Reject(id, actor, note));
      if !actor.Human? {
        return Refused(HumanOnly);
      }
      if Blank(note) {
        return Refused(ReasonRequired);
      }
      if id >= |amendments| {
        return Refused(NotFound);
      }
      if !amendments[id].status.Pending? {
        return Refused(AlreadyDecided);
      }
      amendments := amendments[id := amendments[id].(status := Rejected, decidedBy := Some(Person))];
      r := Done(id);
    }

    method ReopenAmendment(id: AmendmentId, actor: ActorKind, reason: string) returns (r: Result)
      requires Valid()
      modifies this
      ensures Valid()
      ensures Step(Model(), r) == Apply(old(Model()), Reopen(id, actor, reason))
    {
      StepKeeps(Model(), Reopen(id, actor, reason));
      if !actor.Human? {
        return Refused(HumanOnly);
      }
      if Blank(reason) {
        return Refused(ReasonRequired);
      }
      if id >= |amendments| || amendments[id].work >= |works| {
        return Refused(NotFound);
      }
      var a := amendments[id];
      if !a.status.Accepted? || a.decidedBy != Some(AutonomyGate) {
        return Refused(NotAutomatic);
      }
      works := works[a.work := works[a.work].(contract := Write(works[a.work].contract, a.before))];
      r := Done(|amendments|);
      SupersedePending(a.work);
      amendments := amendments + [Amendment(a.work, a.before, a.changes, Pending, None)];
    }
  }
}
