/** What the autonomy policy comes to: the level, the rule in force and the decision, told in the policy rows and the facts. */
module AutonomyOutcomes {
  import opened Wrappers
  import opened AutonomyPolicy

  /** The row allows at least this level. */
  ghost predicate Allows(r: Option<Row>, l: int) { r.Some? && r.value.level >= l }

  /**
   * The effective level reaches l exactly when the workspace is not paused and its ceiling
   * reaches l, the project, or the team where there is no project, asks for as much, and
   * the agent, if it is one, is trusted as far. It lies between 0 and 3.
   */
  lemma LevelIs(i: Input, l: int)
    ensures 0 <= EffectiveLevel(i) <= 3
    ensures 1 <= l <= 3 ==>
      (l <= EffectiveLevel(i) <==>
        && Allows(i.workspace, l) && !i.workspace.value.paused
        && (if i.project.Some? then i.project.value.level >= l else Allows(i.team, l))
        && (i.trust == None || i.trust == Some(L3) || (i.trust == Some(L2) && l <= 2) || (i.trust == Some(L1) && l == 1)))
  {
  }

  /** The gates a level opens by itself. */
  ghost predicate OpenAt(level: int, gate: Gate) {
    || ((gate.CandidateCommit? || gate.ContractAmendment?) && level >= 1)
    || (gate.ReviewAccept? && level >= 2) || (gate.AgentDelegation? && level >= 3)
  }

  /** A preset opens exactly those gates; delegation and spending are nobody's below level 3; everything else waits for a person. */
  lemma PresetIs(level: int, gate: Gate)
    ensures var decider := Preset(level, gate).decider;
      && (decider.Auto? <==> OpenAt(level, gate))
      && (decider.Nobody? <==> (gate.AgentDelegation? || gate.SpendBudget?) && level < 3)
  {
  }

  /** The scope defines the gate, and does not open what the level keeps shut. */
  ghost predicate Defines(r: Option<Row>, gate: Gate, level: int) {
    r.Some? && gate in r.value.gates && (r.value.gates[gate].decider.Auto? ==> OpenAt(level, gate))
  }

  /** The rule in force is the project's, else the team's, else the workspace's, else the preset. */
  lemma RuleIs(i: Input, level: int, gate: Gate)
    ensures var g := GateAt(i, level, gate);
      if Defines(i.project, gate, level) then g.rule == i.project.value.gates[gate] && g.origin.FromProject?
      else if Defines(i.team, gate, level) then g.rule == i.team.value.gates[gate] && g.origin.FromTeam?
      else if Defines(i.workspace, gate, level) then g.rule == i.workspace.value.gates[gate] && g.origin.FromWorkspace?
      else g.rule == Preset(level, gate) && g.origin.FromPreset?
  {
    PresetIs(level, gate);
  }

  /** Some known value of the field reads so, whatever its case. */
  ghost predicate Says(facts: Facts, f: Field, text: string) {
    f in facts && exists k :: 0 <= k < |AsList(facts[f])| && Normalise(AsList(facts[f])[k]) == Some(text)
  }

  lemma InPairIff(f: Field, a: Scalar, b: Scalar, x: string, y: string, facts: Facts)
    requires Normalise(a) == Some(x) && Normalise(b) == Some(y)
    ensures Evaluate(In(f, [a, b]), facts) <==> Says(facts, f, x) || Says(facts, f, y)
  {
    if f in facts {
      var vs := AsList(facts[f]);
      forall k | 0 <= k < |vs|
        ensures Among(vs[k], [a, b]) <==> Normalise(vs[k]) == Some(x) || Normalise(vs[k]) == Some(y)
      {
        assert [a, b][0] == a && [a, b][1] == b;
      }
    }
  }

  lemma InOneIff(f: Field, a: Scalar, x: string, facts: Facts)
    requires Normalise(a) == Some(x)
    ensures Evaluate(In(f, [a]), facts) <==> Says(facts, f, x)
  {
    if f in facts {
      var vs := AsList(facts[f]);
      forall k | 0 <= k < |vs|
        ensures Among(vs[k], [a]) <==> Normalise(vs[k]) == Some(x)
      {
        assert [a][0] == a;
      }
    }
  }

  lemma Lowered()
    ensures Lower("SEV1") == "sev1" && Lower("SEV2") == "sev2" && Lower("SOMETIMES") == "sometimes" && Lower("ONCE") == "once"
    ensures Lower("deploy") == "deploy"
  {
  }

  /** Severe incidents, deploys and intermittent bugs are locked. */
  ghost predicate Grave(facts: Facts) {
    || Says(facts, "severity", "sev1") || Says(facts, "severity", "sev2")
    || Says(facts, "delivery_actions", "deploy")
    || Says(facts, "reproducibility", "sometimes") || Says(facts, "reproducibility", "once")
  }

  lemma LockedIff(gate: Gate, facts: Facts)
    ensures LockMatches(gate, facts) <==> gate.ReviewAccept? && Grave(facts)
  {
    Lowered();
    InPairIff("severity", Str("SEV1"), Str("SEV2"), "sev1", "sev2", facts);
    InOneIff("delivery_actions", Str("deploy"), "deploy", facts);
    InPairIff("reproducibility", Str("SOMETIMES"), Str("ONCE"), "sometimes", "once", facts);
    assert BUILT_IN_LOCKS[0].matches == In("severity", [Str("SEV1"), Str("SEV2")]);
    assert BUILT_IN_LOCKS[1].matches == In("delivery_actions", [Str("deploy")]);
    assert BUILT_IN_LOCKS[2].matches == In("reproducibility", [Str("SOMETIMES"), Str("ONCE")]);
  }

  ghost predicate Watching(i: Input) {
    var row := if i.project.Some? then i.project else i.team;
    row.Some? && row.value.observeUntil.Some? && row.value.observeUntil.value > i.now
  }

  /**
   * The decision, from the rule in force: nobody's where the rule says so; automatic where
   * the rule is, its condition holds, nothing grave is being accepted and the scope is not
   * merely watching; and a person's in every other case.
   */
  lemma DecisionIs(i: Input, gate: Gate, facts: Facts)
    ensures var rule := GateAt(i, EffectiveLevel(i), gate).rule; var decision := DecisionFor(i, gate, facts);
      && (decision.Nobody? <==> rule.decider.Nobody?)
      && (decision.Auto? <==>
            && rule.decider.Auto? && (rule.condition.Some? ==> Evaluate(rule.condition.value, facts))
            && !(gate.ReviewAccept? && Grave(facts)) && !Watching(i))
  {
    LockedIff(gate, facts);
  }

  // ------------------------------------------------------------- the conditions

  /** NOT_IN is IN denied, on a known field; on a single value EQ is IN, and the bounds meet at the value. */
  lemma OperatorsAre(f: Field, v: Scalar, values: seq<Scalar>, n: int, bound: int, facts: Facts)
    ensures Evaluate(NotIn(f, values), facts) <==> f in facts && !Evaluate(In(f, values), facts)
    ensures f in facts && facts[f].One? ==> (Evaluate(Eq(f, v), facts) <==> Evaluate(In(f, [v]), facts))
    ensures f in facts && facts[f] == One(Num(n)) ==>
      && (Evaluate(Gte(f, bound), facts) <==> bound <= n) && (Evaluate(Lte(f, bound), facts) <==> n <= bound)
  {
    if f in facts && facts[f].One? {
      assert AsList(facts[f])[0] == facts[f].value && [v][0] == v;
      assert Among(facts[f].value, [v]) <==> Normalise(v) == Normalise(facts[f].value);
    }
  }

  ghost predicate UnderPreset(i: Input, gate: Gate) { GateAt(i, EffectiveLevel(i), gate).origin.FromPreset? && !Watching(i) }

  /** Under the presets a candidate is committed automatically from level 1, when it is a bug or an improvement with steps and acceptance and not urgent. */
  lemma CommitUnderPresets(i: Input, kind: string, steps: bool, acceptance: bool, priority: int, facts: Facts)
    requires UnderPreset(i, CandidateCommit)
    requires Reads(facts, "type", One(Str(kind))) && Reads(facts, "has_steps", One(Flag(steps)))
    requires Reads(facts, "has_acceptance", One(Flag(acceptance))) && Reads(facts, "priority", One(Num(priority)))
    ensures DecisionFor(i, CandidateCommit, facts).Auto? <==>
      EffectiveLevel(i) >= 1 && (Lower(kind) == "bug" || Lower(kind) == "improvement") && steps && acceptance && priority >= 2
  {
    DecisionIs(i, CandidateCommit, facts);
    RuleIs(i, EffectiveLevel(i), CandidateCommit);
    assert Lower("bug") == "bug" && Lower("improvement") == "improvement";
    InPairIff("type", Str("bug"), Str("improvement"), "bug", "improvement", facts);
    SaysOne(facts, "type", kind, "bug");
    SaysOne(facts, "type", kind, "improvement");
    PartsDecide4(L1_COMMIT, facts);
  }

  lemma PartsDecide4(p: Predicate, facts: Facts)
    requires p.All? && |p.parts| == 4
    ensures Evaluate(p, facts) <==>
      Evaluate(p.parts[0], facts) && Evaluate(p.parts[1], facts) && Evaluate(p.parts[2], facts) && Evaluate(p.parts[3], facts)
  {
    assert forall c :: c in p.parts <==> c == p.parts[0] || c == p.parts[1] || c == p.parts[2] || c == p.parts[3];
  }

  lemma PartsDecide5(p: Predicate, facts: Facts)
    requires p.All? && |p.parts| == 5
    ensures Evaluate(p, facts) <==>
      Evaluate(p.parts[0], facts) && Evaluate(p.parts[1], facts) && Evaluate(p.parts[2], facts) && Evaluate(p.parts[3], facts) && Evaluate(p.parts[4], facts)
  {
    assert forall c :: c in p.parts <==> c == p.parts[0] || c == p.parts[1] || c == p.parts[2] || c == p.parts[3] || c == p.parts[4];
  }

  lemma SaysOne(facts: Facts, f: Field, t: string, text: string)
    requires Reads(facts, f, One(Str(t)))
    ensures Says(facts, f, text) <==> Lower(t) == text
  {
    assert AsList(facts[f])[0] == Str(t);
  }

  lemma NotInPair(f: Field, a: string, b: string, x: string, y: string, t: string, facts: Facts)
    requires Lower(a) == x && Lower(b) == y && Reads(facts, f, One(Str(t)))
    ensures Evaluate(NotIn(f, [Str(a), Str(b)]), facts) <==> Lower(t) != x && Lower(t) != y
  {
    InPairIff(f, Str(a), Str(b), x, y, facts);
    OperatorsAre(f, Null, [Str(a), Str(b)], 0, 0, facts);
    SaysOne(facts, f, t, x);
    SaysOne(facts, f, t, y);
  }

  lemma AcceptConditionIff(grade: string, merged: bool, checks: string, repro: string, severity: string, facts: Facts)
    requires Reads(facts, "auto_accept_grade", One(Str(grade))) && Reads(facts, "pr_merged", One(Flag(merged)))
    requires Reads(facts, "checks", One(Str(checks)))
    requires Reads(facts, "reproducibility", One(Str(repro))) && Reads(facts, "severity", One(Str(severity)))
    ensures Evaluate(L2_ACCEPT, facts) <==>
      && Lower(grade) == "clear" && merged && Lower(checks) == "green"
      && Lower(repro) != "sometimes" && Lower(repro) != "once" && Lower(severity) != "sev1" && Lower(severity) != "sev2"
  {
    Lowered();
    assert Lower("CLEAR") == "clear" && Lower("green") == "green";
    NotInPair("reproducibility", "SOMETIMES", "ONCE", "sometimes", "once", repro, facts);
    NotInPair("severity", "SEV1", "SEV2", "sev1", "sev2", severity, facts);
    PartsDecide5(L2_ACCEPT, facts);
  }

  /** Under the presets a review is accepted automatically from level 2, for a clear case merged on green checks, reproducible and not severe. */
  lemma AcceptUnderPresets(i: Input, grade: string, merged: bool, checks: string, repro: string, severity: string, facts: Facts)
    requires UnderPreset(i, ReviewAccept)
    requires Reads(facts, "auto_accept_grade", One(Str(grade))) && Reads(facts, "pr_merged", One(Flag(merged)))
    requires Reads(facts, "checks", One(Str(checks)))
    requires Reads(facts, "reproducibility", One(Str(repro))) && Reads(facts, "severity", One(Str(severity)))
    ensures DecisionFor(i, ReviewAccept, facts).Auto? <==>
      && EffectiveLevel(i) >= 2 && Lower(grade) == "clear" && merged && Lower(checks) == "green"
      && Lower(repro) != "sometimes" && Lower(repro) != "once" && Lower(severity) != "sev1" && Lower(severity) != "sev2"
      && !Says(facts, "delivery_actions", "deploy")
  {
    DecisionIs(i, ReviewAccept, facts);
    RuleIs(i, EffectiveLevel(i), ReviewAccept);
    AcceptConditionIff(grade, merged, checks, repro, severity, facts);
    SaysOne(facts, "severity", severity, "sev1");
    SaysOne(facts, "severity", severity, "sev2");
    SaysOne(facts, "reproducibility", repro, "sometimes");
    SaysOne(facts, "reproducibility", repro, "once");
  }

  /** Under the presets an amendment is accepted automatically from level 1 when it touches verification alone, from level 3 also scope. */
  lemma AmendUnderPresets(i: Input, fields: seq<string>, facts: Facts)
    requires UnderPreset(i, ContractAmendment)
    requires facts == map["amendment_fields" := Many(seq(|fields|, k requires 0 <= k < |fields| => Str(fields[k])))]
    ensures DecisionFor(i, ContractAmendment, facts).Auto? <==>
      && EffectiveLevel(i) >= 1 && fields != []
      && forall k :: 0 <= k < |fields| ==> Lower(fields[k]) == "verification" || (Lower(fields[k]) == "scope" && EffectiveLevel(i) >= 3)
  {
    DecisionIs(i, ContractAmendment, facts);
    RuleIs(i, EffectiveLevel(i), ContractAmendment);
    assert Lower("verification") == "verification" && Lower("scope") == "scope";
    var vs := AsList(facts["amendment_fields"]);
    forall k | 0 <= k < |fields|
      ensures (exists j :: 0 <= j < 1 && Lower(L1_AMEND.texts[j]) == Lower(vs[k].text)) <==> Lower(fields[k]) == "verification"
      ensures (exists j :: 0 <= j < 2 && Lower(L3_AMEND.texts[j]) == Lower(vs[k].text)) <==> Lower(fields[k]) == "verification" || Lower(fields[k]) == "scope"
    {
      assert Lower(L1_AMEND.texts[0]) == "verification" && Lower(L3_AMEND.texts[0]) == "verification" && Lower(L3_AMEND.texts[1]) == "scope";
    }
  }
}
