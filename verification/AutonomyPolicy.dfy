/** Who decides at each gate: a predicate language, level presets, scope overrides and built-in locks. */
module AutonomyPolicy {
  import opened Wrappers

  type Field = string
  type Time = int

  datatype Scalar = Str(text: string) | Num(number: int) | Flag(flag: bool) | Null

  datatype Fact = One(value: Scalar) | Many(values: seq<Scalar>)

  // Known facts; a field that is absent is unknown.
  type Facts = map<Field, Fact>

  datatype Predicate =
    | All(parts: seq<Predicate>)
    | Any(parts: seq<Predicate>)
    | Eq(field: Field, value: Scalar)
    | In(field: Field, values: seq<Scalar>)
    | NotIn(field: Field, values: seq<Scalar>)
    | Gte(field: Field, bound: int)
    | Lte(field: Field, bound: int)
    | SubsetOf(field: Field, texts: seq<string>)

  // ---------------------------------------------------------------- evaluation

  function Lower(s: string): string {
    seq(|s|, i requires 0 <= i < |s| => if 'A' <= s[i] <= 'Z' then s[i] + ('a' - 'A') else s[i])
  }

  function Digits(n: nat): string {
    if n < 10 then ["0123456789"[n]] else Digits(n / 10) + ["0123456789"[n % 10]]
  }

  /** The text a value is compared by: a number and its decimal spelling are the same to a condition. */
  function Normalise(s: Scalar): Option<string> {
    match s
    case Str(text) => Some(Lower(text))
    case Num(n) => Some(if n < 0 then "-" + Digits(-n) else Digits(n))
    case Flag(b) => Some(if b then "true" else "false")
    case Null => None
  }

  predicate Among(item: Scalar, values: seq<Scalar>) {
    exists i :: 0 <= i < |values| && Normalise(values[i]) == Normalise(item)
  }

  function AsList(f: Fact): seq<Scalar> {
    match f
    case One(v) => [v]
    case Many(vs) => vs
  }

  predicate Evaluate(p: Predicate, facts: Facts) {
    match p
    case All(parts) => forall c :: c in parts ==> Evaluate(c, facts)
    case Any(parts) => exists c :: c in parts && Evaluate(c, facts)
    case Eq(f, v) =>
      f in facts && var vs := AsList(facts[f]); |vs| == 1 && Normalise(vs[0]) == Normalise(v)
    case In(f, values) =>
      f in facts && var vs := AsList(facts[f]); exists i :: 0 <= i < |vs| && Among(vs[i], values)
    case NotIn(f, values) =>
      f in facts && var vs := AsList(facts[f]); forall i :: 0 <= i < |vs| ==> !Among(vs[i], values)
    case Gte(f, bound) =>
      f in facts && var vs := AsList(facts[f]); |vs| == 1 && vs[0].Num? && vs[0].number >= bound
    case Lte(f, bound) =>
      f in facts && var vs := AsList(facts[f]); |vs| == 1 && vs[0].Num? && vs[0].number <= bound
    case SubsetOf(f, texts) =>
      f in facts && var vs := AsList(facts[f]);
      |vs| > 0 && forall i :: 0 <= i < |vs| ==>
        vs[i].Str? && exists j :: 0 <= j < |texts| && Lower(texts[j]) == Lower(vs[i].text)
  }

  /** Everything known before is still known, with the same value. */
  ghost predicate Knows(facts: Facts, more: Facts) {
    forall f :: f in facts ==> f in more && more[f] == facts[f]
  }

  /** A condition that holds keeps holding as more facts become known. */
  lemma {:induction false} EvaluateMonotone(p: Predicate, facts: Facts, more: Facts)
    requires Knows(facts, more) && Evaluate(p, facts)
    ensures Evaluate(p, more)
    decreases p
  {
    match p
    case All(parts) =>
      forall c | c in parts
        ensures Evaluate(c, more)
      {
        EvaluateMonotone(c, facts, more);
      }
    case Any(parts) =>
      var c :| c in parts && Evaluate(c, facts);
      EvaluateMonotone(c, facts, more);
    case _ =>
  }

  // ------------------------------------------------------------------ the rules

  datatype Gate = CandidateCommit | ContractAmendment | ReviewAccept | AgentDelegation | MergeSignal | SpendBudget

  const GATES := [CandidateCommit, ContractAmendment, ReviewAccept, AgentDelegation, MergeSignal, SpendBudget]

  datatype Decider = ByHuman | Auto | Nobody

  datatype Rule = Rule(decider: Decider, condition: Option<Predicate>)

  const L1_COMMIT := All([
    In("type", [Str("bug"), Str("improvement")]),
    Eq("has_steps", Flag(true)),
    Eq("has_acceptance", Flag(true)),
    Gte("priority", 2)])

  const L1_AMEND := SubsetOf("amendment_fields", ["verification"])

  const L3_AMEND := SubsetOf("amendment_fields", ["verification", "scope"])

  const L2_ACCEPT := All([
    Eq("auto_accept_grade", Str("CLEAR")),
    Eq("pr_merged", Flag(true)),
    Eq("checks", Str("green")),
    NotIn("reproducibility", [Str("SOMETIMES"), Str("ONCE")]),
    NotIn("severity", [Str("SEV1"), Str("SEV2")])])

  const L3_DELEGATE := All([Gte("budget_remaining", 1), Lte("hops", 3)])

  /** LEVEL_PRESETS. */
  function Preset(level: int, gate: Gate): Rule {
    match gate
    case CandidateCommit => if level >= 1 then Rule(Auto, Some(L1_COMMIT)) else Rule(ByHuman, None)
    case ContractAmendment =>
      if level >= 3 then Rule(Auto, Some(L3_AMEND)) else if level >= 1 then Rule(Auto, Some(L1_AMEND)) else Rule(ByHuman, None)
    case ReviewAccept => if level >= 2 then Rule(Auto, Some(L2_ACCEPT)) else Rule(ByHuman, None)
    case AgentDelegation => if level >= 3 then Rule(Auto, Some(L3_DELEGATE)) else Rule(Nobody, None)
    case MergeSignal => Rule(ByHuman, None)
    case SpendBudget => if level >= 3 then Rule(ByHuman, Some(Lte("budget_remaining", 0))) else Rule(Nobody, None)
  }

  datatype Lock = Lock(id: string, gate: Gate, matches: Predicate)

  const BUILT_IN_LOCKS := [
    Lock("sev1_sev2_done", ReviewAccept, In("severity", [Str("SEV1"), Str("SEV2")])),
    Lock("deploy_or_credentials", ReviewAccept, In("delivery_actions", [Str("deploy")])),
    Lock("intermittent_bug", ReviewAccept, In("reproducibility", [Str("SOMETIMES"), Str("ONCE")]))]

  // ----------------------------------------------------------------- resolution

  datatype Trust = Observe | L1 | L2 | L3

  datatype Row = Row(level: int, gates: map<Gate, Rule>, observeUntil: Option<Time>, paused: bool)

  datatype Input = Input(workspace: Option<Row>, team: Option<Row>, project: Option<Row>, trust: Option<Trust>, now: Time)

  datatype LevelSource = Default | Workspace | Team | Project | AgentTrust | Ceiling | PausedSwitch

  datatype Origin = FromPreset | FromWorkspace | FromTeam | FromProject

  datatype ResolvedGate = ResolvedGate(rule: Rule, origin: Origin, locks: seq<string>)

  datatype Resolved = Resolved(level: int, source: LevelSource, ceiling: int, requested: int, observing: bool, paused: bool, gates: map<Gate, ResolvedGate>)

  function TrustLevel(t: Trust): int {
    match t
    case Observe => 0
    case L1 => 1
    case L2 => 2
    case L3 => 3
  }

  function Clamp(level: int): int { Max(0, Min(3, level)) }

  predicate IsPaused(i: Input) { i.workspace.Some? && i.workspace.value.paused }

  function CeilingOf(i: Input): int {
    if IsPaused(i) || i.workspace.None? then 0 else Clamp(i.workspace.value.level)
  }

  function RequestedRow(i: Input): Option<Row> { if i.project.Some? then i.project else i.team }

  function RequestedOf(i: Input): int { if RequestedRow(i).Some? then Clamp(RequestedRow(i).value.level) else 0 }

  function TrustOf(i: Input): int { if i.trust.Some? then TrustLevel(i.trust.value) else 3 }

  /** effective = min(ceiling, project ?? team, trust(agent)). */
  function EffectiveLevel(i: Input): int { Min(Min(CeilingOf(i), RequestedOf(i)), TrustOf(i)) }

  function ObservingOf(i: Input): bool {
    RequestedRow(i).Some? && RequestedRow(i).value.observeUntil.Some? && RequestedRow(i).value.observeUntil.value > i.now
  }

  /** A scope's own rule replaces the one so far, unless it would open a gate the effective level keeps shut. */
  function Override(level: int, gate: Gate, row: Option<Row>, origin: Origin, sofar: ResolvedGate): ResolvedGate {
    if row.None? || gate !in row.value.gates then sofar
    else
      var rule := row.value.gates[gate];
      if rule.decider.Auto? && !Preset(level, gate).decider.Auto? then sofar
      else ResolvedGate(rule, origin, [])
  }

  /** The most specific scope that may define the gate, else the preset of the level. */
  function GateAt(i: Input, level: int, gate: Gate): ResolvedGate {
    var preset := ResolvedGate(Preset(level, gate), FromPreset, []);
    var w := Override(level, gate, i.workspace, FromWorkspace, preset);
    var t := Override(level, gate, i.team, FromTeam, w);
    Override(level, gate, i.project, FromProject, t)
  }

  function LockIds(gate: Gate, n: nat): seq<string>
    requires n <= |BUILT_IN_LOCKS|
  {
    if n == 0 then []
    else if BUILT_IN_LOCKS[n - 1].gate == gate then LockIds(gate, n - 1) + [BUILT_IN_LOCKS[n - 1].id]
    else LockIds(gate, n - 1)
  }

  function Locked(g: ResolvedGate, gate: Gate): ResolvedGate {
    if g.rule.decider.Auto? then g.(locks := LockIds(gate, |BUILT_IN_LOCKS|)) else g
  }

  lemma GatesComplete(g: Gate)
    ensures g in GATES
  {
    match g
    case CandidateCommit => assert GATES[0] == g;
    case ContractAmendment => assert GATES[1] == g;
    case ReviewAccept => assert GATES[2] == g;
    case AgentDelegation => assert GATES[3] == g;
    case MergeSignal => assert GATES[4] == g;
    case SpendBudget => assert GATES[5] == g;
  }

  /** The resolver: clamp the level step by step, fill the gate table scope by scope, then mark the locks. */
  method ResolveAutonomy(i: Input) returns (r: Resolved)
    ensures r.level == EffectiveLevel(i) && r.ceiling == CeilingOf(i) && r.requested == RequestedOf(i)
    ensures r.observing == ObservingOf(i) && r.paused == IsPaused(i)
    ensures forall g: Gate :: g in r.gates && r.gates[g] == Locked(GateAt(i, r.level, g), g)
    ensures r.source.PausedSwitch? ==> r.paused && r.level < r.requested
    ensures r.source.Ceiling? ==> !r.paused && r.level == r.ceiling < r.requested
    ensures r.source.AgentTrust? ==> i.trust.Some? && r.level == TrustOf(i) < Min(r.ceiling, r.requested)
  {
    var paused := i.workspace.Some? && i.workspace.value.paused;
    var ceiling := if paused then 0 else Clamp(if i.workspace.Some? then i.workspace.value.level else 0);
    var requestedRow := if i.project.Some? then i.project else i.team;
    var requested := Clamp(if requestedRow.Some? then requestedRow.value.level else 0);
    var level := requested;
    var source := if i.project.Some? then Project else if i.team.Some? then Team else if i.workspace.Some? then Workspace else Default;
    if ceiling < level {
      level := ceiling;
      source := if paused then PausedSwitch else Ceiling;
    }
    if i.trust.Some? && TrustLevel(i.trust.value) < level {
      level := TrustLevel(i.trust.value);
      source := AgentTrust;
    }
    var observing := requestedRow.Some? && requestedRow.value.observeUntil.Some? && requestedRow.value.observeUntil.value > i.now;
    var gates := FillGates(i, level);
    gates := MarkLocks(gates);
    r := Resolved(level, source, ceiling, requested, observing, paused, gates);
  }

  method FillGates(i: Input, level: int) returns (gates: map<Gate, ResolvedGate>)
    ensures forall g: Gate :: g in gates && gates[g] == GateAt(i, level, g)
  {
    gates := map[];
    for n := 0 to |GATES|
      invariant forall k :: 0 <= k < n ==> GATES[k] in gates && gates[GATES[k]] == GateAt(i, level, GATES[k])
    {
      var gate := GATES[n];
      var resolved := ResolvedGate(Preset(level, gate), FromPreset, []);
      var scopes := [(FromWorkspace, i.workspace), (FromTeam, i.team), (FromProject, i.project)];
      var presetAllowsAuto := Preset(level, gate).decider.Auto?;
      for s := 0 to |scopes|
        invariant s == 0 ==> resolved == ResolvedGate(Preset(level, gate), FromPreset, [])
        invariant s == 1 ==> resolved == Override(level, gate, i.workspace, FromWorkspace, ResolvedGate(Preset(level, gate), FromPreset, []))
        invariant s == 2 ==> resolved == Override(level, gate, i.team, FromTeam,
                               Override(level, gate, i.workspace, FromWorkspace, ResolvedGate(Preset(level, gate), FromPreset, [])))
        invariant s == 3 ==> resolved == GateAt(i, level, gate)
      {
        var (origin, row) := scopes[s];
        if row.Some? && gate in row.value.gates {
          var rule := row.value.gates[gate];
          if !rule.decider.Auto? || presetAllowsAuto {
            resolved := ResolvedGate(rule, origin, []);
          }
        }
      }
      gates := gates[gate := resolved];
    }
    forall g: Gate
      ensures g in gates && gates[g] == GateAt(i, level, g)
    {
      GatesComplete(g);
    }
  }

  method MarkLocks(gates: map<Gate, ResolvedGate>) returns (r: map<Gate, ResolvedGate>)
    requires forall g: Gate :: g in gates && gates[g].locks == []
    ensures forall g: Gate :: g in r && r[g] == Locked(gates[g], g)
  {
    r := gates;
    for n := 0 to |BUILT_IN_LOCKS|
      invariant forall g: Gate :: g in r
      invariant forall g: Gate :: r[g] == if gates[g].rule.decider.Auto? then gates[g].(locks := LockIds(g, n)) else gates[g]
    {
      var lock := BUILT_IN_LOCKS[n];
      if r[lock.gate].rule.decider.Auto? {
        r := r[lock.gate := r[lock.gate].(locks := r[lock.gate].locks + [lock.id])];
      }
    }
  }

  // ------------------------------------------------------------------ decisions

  predicate LockMatches(gate: Gate, facts: Facts) {
    exists k :: 0 <= k < |BUILT_IN_LOCKS| && BUILT_IN_LOCKS[k].gate == gate && Evaluate(BUILT_IN_LOCKS[k].matches, facts)
  }

  /** decide, for one gate of a resolved policy. */
  function Decide(g: ResolvedGate, observing: bool, gate: Gate, facts: Facts): Decider {
    if !g.rule.decider.Auto? then g.rule.decider
    else if LockMatches(gate, facts) then ByHuman
    else if g.rule.condition.Some? && !Evaluate(g.rule.condition.value, facts) then ByHuman
    else if observing then ByHuman
    else Auto
  }

  /** What the policy decides at a gate for these facts. */
  function DecisionFor(i: Input, gate: Gate, facts: Facts): Decider {
    Decide(Locked(GateAt(i, EffectiveLevel(i), gate), gate), ObservingOf(i), gate, facts)
  }

  /** Nothing overrides a shut gate: a rule resolved to automatic stands on an automatic preset of that level. */
  lemma AutoNeedsAutoPreset(i: Input, level: int, gate: Gate)
    ensures GateAt(i, level, gate).rule.decider.Auto? ==> Preset(level, gate).decider.Auto?
  {
  }

  /** A higher level keeps an automatic preset automatic, and its condition no narrower. */
  lemma PresetsWiden(low: int, high: int, gate: Gate, facts: Facts)
    requires low <= high && Preset(low, gate).decider.Auto?
    ensures Preset(high, gate).decider.Auto? && Preset(high, gate).condition.Some? && Preset(low, gate).condition.Some?
    ensures Evaluate(Preset(low, gate).condition.value, facts) ==> Evaluate(Preset(high, gate).condition.value, facts)
  {
    if gate.ContractAmendment? && low < 3 <= high && Evaluate(L1_AMEND, facts) {
      var vs := AsList(facts["amendment_fields"]);
      forall i | 0 <= i < |vs|
        ensures vs[i].Str? && exists j :: 0 <= j < 2 && Lower(L3_AMEND.texts[j]) == Lower(vs[i].text)
      {
        assert Lower(L3_AMEND.texts[0]) == Lower(L1_AMEND.texts[0]);
      }
    }
  }

  /** The same policy with a higher ceiling, requested level or trust, or with the pause lifted. */
  ghost predicate Raised(i: Input, i': Input) {
    && i'.now == i.now
    && RowRaised(i.workspace, i'.workspace) && RowRaised(i.team, i'.team) && RowRaised(i.project, i'.project)
    && TrustOf(i) <= TrustOf(i')
  }

  ghost predicate RowRaised(r: Option<Row>, r': Option<Row>) {
    && (r.Some? <==> r'.Some?)
    && (r.Some? ==> r.value.level <= r'.value.level && r'.value.gates == r.value.gates
                    && r'.value.observeUntil == r.value.observeUntil && (r'.value.paused ==> r.value.paused))
  }

  lemma RaisedLevel(i: Input, i': Input)
    requires Raised(i, i')
    ensures EffectiveLevel(i) <= EffectiveLevel(i')
  {
  }

  /** Overrides that applied at the lower level apply at the higher one: the gate is the same, or both are presets. */
  lemma RaisedGate(i: Input, i': Input, low: int, high: int, gate: Gate)
    requires Raised(i, i') && low <= high && Preset(low, gate).decider.Auto?
    ensures GateAt(i', high, gate) == GateAt(i, low, gate)
      || (GateAt(i', high, gate).rule == Preset(high, gate) && GateAt(i, low, gate).rule == Preset(low, gate))
  {
    PresetsWiden(low, high, gate, map[]);
  }

  /**
   * For every override table, lock match and fact set: an automatic decision stays
   * automatic when the ceiling, the requested level or the agent's trust is raised.
   */
  lemma RaisingKeepsAutomatic(i: Input, i': Input, gate: Gate, facts: Facts)
    requires Raised(i, i') && DecisionFor(i, gate, facts).Auto?
    ensures DecisionFor(i', gate, facts).Auto?
  {
    var low, high := EffectiveLevel(i), EffectiveLevel(i');
    RaisedLevel(i, i');
    AutoNeedsAutoPreset(i, low, gate);
    RaisedGate(i, i', low, high, gate);
    PresetsWiden(low, high, gate, facts);
  }

  /** Nothing is automatic when the workspace is paused, at ceiling 0, or for an agent only observed. */
  lemma NeverAutomatic(i: Input, gate: Gate, facts: Facts)
    requires IsPaused(i) || CeilingOf(i) == 0 || i.trust == Some(Observe)
    ensures !DecisionFor(i, gate, facts).Auto?
  {
    AutoNeedsAutoPreset(i, EffectiveLevel(i), gate);
    assert EffectiveLevel(i) <= 0;
    assert !Preset(EffectiveLevel(i), gate).decider.Auto?;
  }

  /** Learning more facts takes an automatic decision away exactly when one of them matches a built-in lock. */
  lemma LearningFacts(i: Input, gate: Gate, facts: Facts, more: Facts)
    requires Knows(facts, more) && DecisionFor(i, gate, facts).Auto?
    ensures DecisionFor(i, gate, more).Auto? <==> !LockMatches(gate, more)
  {
    var g := GateAt(i, EffectiveLevel(i), gate);
    if g.rule.condition.Some? {
      EvaluateMonotone(g.rule.condition.value, facts, more);
    }
  }

  /** The condition's shape alone makes it true: it needs no fact at all. */
  predicate AsksNothing(p: Predicate) {
    match p
    case All(parts) => forall c :: c in parts ==> AsksNothing(c)
    case Any(parts) => exists c :: c in parts && AsksNothing(c)
    case _ => false
  }

  lemma {:induction false} KnowingNothing(p: Predicate)
    ensures Evaluate(p, map[]) <==> AsksNothing(p)
    decreases p
  {
    match p
    case All(parts) =>
      forall c | c in parts
        ensures Evaluate(c, map[]) <==> AsksNothing(c)
      {
        KnowingNothing(c);
      }
    case Any(parts) =>
      forall c | c in parts
        ensures Evaluate(c, map[]) <==> AsksNothing(c)
      {
        KnowingNothing(c);
      }
    case _ =>
  }

  /**
   * With nothing known a decision is automatic exactly when the rule in force is, the
   * policy is not merely observing, and the rule's condition is absent or needs no fact.
   */
  lemma UnknownFactsIff(i: Input, gate: Gate)
    ensures var rule := GateAt(i, EffectiveLevel(i), gate).rule;
      DecisionFor(i, gate, map[]).Auto? <==>
        rule.decider.Auto? && !ObservingOf(i) && (rule.condition.None? || AsksNothing(rule.condition.value))
  {
    var rule := GateAt(i, EffectiveLevel(i), gate).rule;
    if rule.condition.Some? {
      KnowingNothing(rule.condition.value);
    }
    forall k | 0 <= k < |BUILT_IN_LOCKS|
      ensures !Evaluate(BUILT_IN_LOCKS[k].matches, map[])
    {
    }
  }

  // --------------------------------------------------------------- unknown facts

  /** Every lock of the gate looks at a field that is known. */
  predicate LockFieldsKnown(gate: Gate, facts: Facts) {
    forall k :: 0 <= k < |BUILT_IN_LOCKS| && BUILT_IN_LOCKS[k].gate == gate ==> LockField(k) in facts
  }

  function LockField(k: nat): Field
    requires k < |BUILT_IN_LOCKS|
  {
    BUILT_IN_LOCKS[k].matches.field
  }

  /** A lock on an unknown field may come to match. */
  lemma LockCanMatch(k: nat, facts: Facts) returns (more: Facts)
    requires k < |BUILT_IN_LOCKS| && LockField(k) !in facts
    ensures Knows(facts, more) && Evaluate(BUILT_IN_LOCKS[k].matches, more)
  {
    var lock := BUILT_IN_LOCKS[k].matches;
    more := facts[lock.field := One(lock.values[0])];
    assert AsList(more[lock.field]) == [lock.values[0]];
    assert Among(AsList(more[lock.field])[0], lock.values);
  }

  /**
   * An automatic decision stands whatever unknown facts turn out to be exactly when
   * every built-in lock of the gate looks at a field already known.
   */
  lemma AutomaticStandsIff(i: Input, gate: Gate, facts: Facts)
    requires DecisionFor(i, gate, facts).Auto?
    ensures (forall more: Facts :: Knows(facts, more) ==> DecisionFor(i, gate, more).Auto?) <==> LockFieldsKnown(gate, facts)
  {
    if LockFieldsKnown(gate, facts) {
      forall more: Facts | Knows(facts, more)
        ensures DecisionFor(i, gate, more).Auto?
      {
        LearningFacts(i, gate, facts, more);
        LearningFacts(i, gate, facts, facts);
        forall k | 0 <= k < |BUILT_IN_LOCKS| && BUILT_IN_LOCKS[k].gate == gate
          ensures !Evaluate(BUILT_IN_LOCKS[k].matches, more)
        {
          assert more[LockField(k)] == facts[LockField(k)];
        }
      }
    } else {
      var k: nat :| k < |BUILT_IN_LOCKS| && BUILT_IN_LOCKS[k].gate == gate && LockField(k) !in facts;
      var more := LockCanMatch(k, facts);
      LearningFacts(i, gate, facts, more);
      assert LockMatches(gate, more);
    }
  }

  /** The condition looks at the field somewhere. */
  predicate Names(p: Predicate, f: Field) {
    match p
    case All(parts) => exists c :: c in parts && Names(c, f)
    case Any(parts) => exists c :: c in parts && Names(c, f)
    case _ => p.field == f
  }

  /** The condition cannot hold without the field: some part of a conjunction needs it, every part of a disjunction does. */
  predicate Needs(p: Predicate, f: Field) {
    match p
    case All(parts) => exists c :: c in parts && Needs(c, f)
    case Any(parts) => forall c :: c in parts ==> Needs(c, f)
    case _ => p.field == f
  }

  lemma {:induction false} NeedsUnknown(p: Predicate, f: Field, facts: Facts)
    requires Needs(p, f) && f !in facts
    ensures !Evaluate(p, facts)
    decreases p
  {
    match p
    case All(parts) =>
      var c :| c in parts && Needs(c, f);
      NeedsUnknown(c, f, facts);
    case Any(parts) =>
      forall c | c in parts
        ensures !Evaluate(c, facts)
      {
        NeedsUnknown(c, f, facts);
      }
    case _ =>
  }

  /** A condition may name a field without needing it: one of two alternatives is enough. */
  lemma NamedButNotNeeded() returns (p: Predicate, facts: Facts)
    ensures Names(p, "priority") && !Needs(p, "priority") && "priority" !in facts && Evaluate(p, facts)
  {
    p := Any([Eq("type", Str("bug")), Eq("priority", Num(2))]);
    facts := map["type" := One(Str("bug"))];
    assert p.parts[0] in p.parts && p.parts[1] in p.parts;
    assert Evaluate(p.parts[0], facts);
  }

  /** While a field the rule in force needs is unknown, nothing is decided automatically. */
  lemma NeededFactFallsBack(i: Input, gate: Gate, facts: Facts, f: Field)
    requires GateAt(i, EffectiveLevel(i), gate).rule.condition.Some?
    requires Needs(GateAt(i, EffectiveLevel(i), gate).rule.condition.value, f)
    requires f !in facts
    ensures !DecisionFor(i, gate, facts).Auto?
  {
    NeedsUnknown(GateAt(i, EffectiveLevel(i), gate).rule.condition.value, f, facts);
  }

  /** What a condition says depends on the fields it names only. */
  lemma {:induction false} OnlyNamedMatter(p: Predicate, a: Facts, b: Facts)
    requires forall f :: Names(p, f) ==> (f in a <==> f in b) && (f in a ==> a[f] == b[f])
    ensures Evaluate(p, a) <==> Evaluate(p, b)
    decreases p
  {
    match p
    case All(parts) =>
      forall c | c in parts
        ensures Evaluate(c, a) <==> Evaluate(c, b)
      {
        assert forall f :: Names(c, f) ==> Names(p, f);
        OnlyNamedMatter(c, a, b);
      }
    case Any(parts) =>
      forall c | c in parts
        ensures Evaluate(c, a) <==> Evaluate(c, b)
      {
        assert forall f :: Names(c, f) ==> Names(p, f);
        OnlyNamedMatter(c, a, b);
      }
    case _ =>
      assert Names(p, p.field);
  }

  lemma PresetShape(level: int, gate: Gate)
    requires Preset(level, gate).decider.Auto?
    ensures Preset(level, gate).condition.Some?
    ensures var c := Preset(level, gate).condition.value; c == L1_COMMIT || c == L1_AMEND || c == L3_AMEND || c == L2_ACCEPT || c == L3_DELEGATE
  {
  }

  /** The conditions of the presets are leaves, or conjunctions of leaves. */
  predicate Flat(p: Predicate) { !p.Any? && (p.All? ==> forall c :: c in p.parts ==> !c.All? && !c.Any?) }

  lemma FlatNeedsNamed(p: Predicate, f: Field)
    requires Flat(p)
    ensures Names(p, f) <==> Needs(p, f)
  {
    if p.All? {
      forall c | c in p.parts
        ensures Names(c, f) <==> Needs(c, f)
      {
      }
    }
  }

  /** The field is known, with this value. */
  predicate Reads(facts: Facts, f: Field, v: Fact) { f in facts && facts[f] == v }

  lemma EvaluateEach(p: Predicate, facts: Facts)
    requires p.All? && forall i :: 0 <= i < |p.parts| ==> Evaluate(p.parts[i], facts)
    ensures Evaluate(p, facts)
  {
  }

  lemma InHolds(f: Field, values: seq<Scalar>, k: nat, facts: Facts)
    requires k < |values| && Reads(facts, f, One(values[k]))
    ensures Evaluate(In(f, values), facts)
  {
    assert AsList(facts[f])[0] == values[k];
    assert Among(values[k], values);
  }

  lemma CommitHolds(facts: Facts)
    requires Reads(facts, "type", One(Str("bug"))) && Reads(facts, "has_steps", One(Flag(true)))
    requires Reads(facts, "has_acceptance", One(Flag(true))) && Reads(facts, "priority", One(Num(2)))
    ensures Evaluate(L1_COMMIT, facts)
  {
    InHolds("type", [Str("bug"), Str("improvement")], 0, facts);
    assert Evaluate(L1_COMMIT.parts[0], facts);
    assert Evaluate(L1_COMMIT.parts[1], facts);
    assert Evaluate(L1_COMMIT.parts[2], facts);
    assert Evaluate(L1_COMMIT.parts[3], facts);
    EvaluateEach(L1_COMMIT, facts);
  }

  lemma NotIntermittent()
    ensures !Among(Str("ALWAYS"), [Str("SOMETIMES"), Str("ONCE")]) && !Among(Str("SEV3"), [Str("SEV1"), Str("SEV2")])
  {
    assert Lower("ALWAYS")[0] == 'a' && Lower("SOMETIMES")[0] == 's' && Lower("ONCE")[0] == 'o';
    assert Lower("SEV3")[3] == '3' && Lower("SEV1")[3] == '1' && Lower("SEV2")[3] == '2';
  }

  /** A fix that passed, of a bug neither severe nor intermittent. */
  predicate GoodFix(facts: Facts) {
    && Reads(facts, "auto_accept_grade", One(Str("CLEAR"))) && Reads(facts, "pr_merged", One(Flag(true)))
    && Reads(facts, "checks", One(Str("green")))
    && Reads(facts, "reproducibility", One(Str("ALWAYS"))) && Reads(facts, "severity", One(Str("SEV3")))
  }

  lemma AcceptHolds(facts: Facts)
    requires GoodFix(facts)
    ensures Evaluate(L2_ACCEPT, facts)
  {
    NotIntermittent();
    assert Evaluate(L2_ACCEPT.parts[0], facts);
    assert Evaluate(L2_ACCEPT.parts[1], facts);
    assert Evaluate(L2_ACCEPT.parts[2], facts);
    assert Evaluate(L2_ACCEPT.parts[3], facts);
    assert Evaluate(L2_ACCEPT.parts[4], facts);
    EvaluateEach(L2_ACCEPT, facts);
  }

  lemma AmendHolds(facts: Facts)
    requires Reads(facts, "amendment_fields", Many([Str("verification")]))
    ensures Evaluate(L1_AMEND, facts) && Evaluate(L3_AMEND, facts)
  {
    assert Lower(L1_AMEND.texts[0]) == Lower("verification") && Lower(L3_AMEND.texts[0]) == Lower("verification");
  }

  lemma DelegateHolds(facts: Facts)
    requires Reads(facts, "budget_remaining", One(Num(1))) && Reads(facts, "hops", One(Num(0)))
    ensures Evaluate(L3_DELEGATE, facts)
  {
    assert Evaluate(L3_DELEGATE.parts[0], facts);
    assert Evaluate(L3_DELEGATE.parts[1], facts);
    EvaluateEach(L3_DELEGATE, facts);
  }

  lemma GoodFixUnlocked(gate: Gate, facts: Facts)
    requires "reproducibility" in facts ==> facts["reproducibility"] == One(Str("ALWAYS"))
    requires "severity" in facts ==> facts["severity"] == One(Str("SEV3"))
    requires "delivery_actions" !in facts
    ensures !LockMatches(gate, facts)
  {
    NotIntermittent();
  }

  /** Facts that meet the condition of every preset and no lock. */
  lemma ClearCase(p: Predicate) returns (facts: Facts)
    requires p == L1_COMMIT || p == L1_AMEND || p == L3_AMEND || p == L2_ACCEPT || p == L3_DELEGATE
    ensures Evaluate(p, facts) && "delivery_actions" !in facts
    ensures "reproducibility" in facts ==> facts["reproducibility"] == One(Str("ALWAYS"))
    ensures "severity" in facts ==> facts["severity"] == One(Str("SEV3"))
  {
    if p == L1_COMMIT {
      facts := map["type" := One(Str("bug")), "has_steps" := One(Flag(true)), "has_acceptance" := One(Flag(true)), "priority" := One(Num(2))];
      CommitHolds(facts);
    } else if p == L2_ACCEPT {
      facts := map["auto_accept_grade" := One(Str("CLEAR")), "pr_merged" := One(Flag(true)), "checks" := One(Str("green")),
                   "reproducibility" := One(Str("ALWAYS")), "severity" := One(Str("SEV3"))];
      AcceptHolds(facts);
    } else if p == L3_DELEGATE {
      facts := map["budget_remaining" := One(Num(1)), "hops" := One(Num(0))];
      DelegateHolds(facts);
    } else {
      facts := map["amendment_fields" := Many([Str("verification")])];
      AmendHolds(facts);
    }
  }

  /** A preset's condition can be met without any field it does not name. */
  lemma UnnamedFieldMayBeUnknown(p: Predicate, gate: Gate, f: Field) returns (facts: Facts)
    requires p == L1_COMMIT || p == L1_AMEND || p == L3_AMEND || p == L2_ACCEPT || p == L3_DELEGATE
    requires !Names(p, f)
    ensures f !in facts && Evaluate(p, facts) && !LockMatches(gate, facts)
  {
    var clear := ClearCase(p);
    facts := clear - {f};
    OnlyNamedMatter(p, clear, facts);
    GoodFixUnlocked(gate, facts);
  }

  lemma PresetsFlat(p: Predicate)
    requires p == L1_COMMIT || p == L1_AMEND || p == L3_AMEND || p == L2_ACCEPT || p == L3_DELEGATE
    ensures Flat(p)
  {
  }

  /**
   * Under an automatic preset, leaving a field unknown always falls back to a person
   * exactly when the preset's condition names that field.
   */
  lemma PresetFallsBackIff(i: Input, gate: Gate, f: Field, rule: Rule)
    requires rule == GateAt(i, EffectiveLevel(i), gate).rule && rule.decider.Auto? && !ObservingOf(i)
    requires GateAt(i, EffectiveLevel(i), gate).origin.FromPreset?
    ensures rule.condition.Some?
    ensures Names(rule.condition.value, f) <==> forall facts: Facts :: f !in facts ==> !DecisionFor(i, gate, facts).Auto?
  {
    PresetShape(EffectiveLevel(i), gate);
    var p := rule.condition.value;
    PresetsFlat(p);
    FlatNeedsNamed(p, f);
    if Names(p, f) {
      forall facts: Facts | f !in facts
        ensures !DecisionFor(i, gate, facts).Auto?
      {
        NeededFactFallsBack(i, gate, facts, f);
      }
    } else {
      var facts := UnnamedFieldMayBeUnknown(p, gate, f);
      assert DecisionFor(i, gate, facts).Auto?;
    }
  }

  /** So under the presets nothing is automatic while nothing is known. */
  lemma PresetsFallBack(i: Input, gate: Gate)
    requires GateAt(i, EffectiveLevel(i), gate).origin.FromPreset?
    ensures !DecisionFor(i, gate, map[]).Auto?
  {
    UnknownFactsIff(i, gate);
    assert L1_COMMIT.parts[0] in L1_COMMIT.parts;
    assert L2_ACCEPT.parts[0] in L2_ACCEPT.parts;
    assert L3_DELEGATE.parts[0] in L3_DELEGATE.parts;
  }

  // What is known of a fixed, reproducible bug once GitHub confirms the fix; nothing ever supplies delivery_actions.
  const FIXED_BUG: Facts := map[
    "type" := One(Str("bug")), "labels" := Many([Str("bug")]), "priority" := One(Num(2)), "severity" := One(Str("SEV3")),
    "reproducibility" := One(Str("ALWAYS")), "source" := One(Null), "has_steps" := One(Flag(true)), "has_acceptance" := One(Flag(true)),
    "auto_accept_grade" := One(Str("CLEAR")), "pr_merged" := One(Flag(true)), "checks" := One(Str("green"))]

  lemma FixedBugAccepted(facts: Facts)
    requires facts == FIXED_BUG
    ensures Evaluate(L2_ACCEPT, facts) && !LockMatches(ReviewAccept, facts) && "delivery_actions" !in facts
  {
    assert GoodFix(facts);
    AcceptHolds(facts);
    GoodFixUnlocked(ReviewAccept, facts);
  }

  lemma PlainLevelTwo() returns (i: Input)
    ensures EffectiveLevel(i) == 2 && !ObservingOf(i)
    ensures GateAt(i, 2, ReviewAccept) == ResolvedGate(Rule(Auto, Some(L2_ACCEPT)), FromPreset, [])
  {
    i := Input(Some(Row(2, map[], None, false)), Some(Row(2, map[], None, false)), None, None, 0);
  }

  /** Under the presets at level 2 such a bug is accepted automatically with its delivery actions unknown; had they been known to include a deploy, a person would decide. */
  lemma UnknownFactsCanBeAutomatic() returns (i: Input, facts: Facts, more: Facts)
    ensures EffectiveLevel(i) == 2 && GateAt(i, 2, ReviewAccept).origin.FromPreset?
    ensures facts == FIXED_BUG && "delivery_actions" !in facts && DecisionFor(i, ReviewAccept, facts).Auto?
    ensures Knows(facts, more) && DecisionFor(i, ReviewAccept, more).ByHuman?
  {
    i := PlainLevelTwo();
    facts := FIXED_BUG;
    FixedBugAccepted(facts);
    assert LockField(1) == "delivery_actions";
    more := LockCanMatch(1, facts);
    assert BUILT_IN_LOCKS[1].gate == ReviewAccept;
    assert LockMatches(ReviewAccept, more);
  }

  /** Under the presets alone, delegation is automatic exactly at level 3 with budget left and no more than three hops. */
  lemma DelegationUnderPresets(i: Input, budget: int, hops: int)
    requires GateAt(i, EffectiveLevel(i), AgentDelegation).origin.FromPreset? && !ObservingOf(i)
    ensures var facts := map["budget_remaining" := One(Num(budget)), "hops" := One(Num(hops))];
      DecisionFor(i, AgentDelegation, facts).Auto? <==> EffectiveLevel(i) == 3 && budget >= 1 && hops <= 3
  {
    var facts := map["budget_remaining" := One(Num(budget)), "hops" := One(Num(hops))];
    assert !LockMatches(AgentDelegation, facts);
    assert Evaluate(L3_DELEGATE.parts[0], facts) <==> budget >= 1;
    assert Evaluate(L3_DELEGATE.parts[1], facts) <==> hops <= 3;
    assert Evaluate(L3_DELEGATE, facts) <==> budget >= 1 && hops <= 3 by {
      assert forall c :: c in L3_DELEGATE.parts <==> c == L3_DELEGATE.parts[0] || c == L3_DELEGATE.parts[1];
    }
  }
}
