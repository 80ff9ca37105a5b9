/** SLA reminders: sweeps from several processes at once, each reminder recorded before it is sent. */
module SlaAlerts {
  import opened Wrappers
  import opened SlaClock

  type WorkId = nat
  type SweepId = nat

  datatype Kind = RiskAlert | BreachAlert

  datatype Alert = Alert(work: WorkId, kind: Kind)

  // What is left of one sweep's reminders for one work.
  datatype Owing = Owing(work: WorkId, kinds: seq<Kind>)

  // The (work, kind) rows, the reminders sent so far in order, and the sweeps under way.
  datatype Book = Book(recorded: set<Alert>, sent: seq<Alert>, sweeps: map<SweepId, Owing>)

  datatype Event = Begin(sweep: SweepId, work: WorkId, status: Status) | Advance(sweep: SweepId)

  /** The reminders a clock owes; only the last is sent, a milder one is recorded as done. */
  function OwedSlaAlerts(status: Status): seq<Kind> {
    if status.Breached? then [RiskAlert, BreachAlert] else if status.AtRisk? then [RiskAlert] else []
  }

  /** One transaction: whoever inserts the row sends the reminder, if it is the one to send. */
  function Record(recorded: set<Alert>, sent: seq<Alert>, a: Alert, sendThis: bool): (set<Alert>, seq<Alert>) {
    (recorded + {a}, if a !in recorded && sendThis then sent + [a] else sent)
  }

  /** A sweep takes its reading of the clock, and later works off its reminders one transaction at a time. */
  function Step(b: Book, e: Event): Book {
    match e
    case Begin(sweep, work, status) => b.(sweeps := b.sweeps[sweep := Owing(work, OwedSlaAlerts(status))])
    case Advance(sweep) =>
      if sweep !in b.sweeps || b.sweeps[sweep].kinds == [] then b
      else
        var o := b.sweeps[sweep];
        var (recorded, sent) := Record(b.recorded, b.sent, Alert(o.work, o.kinds[0]), |o.kinds| == 1);
        Book(recorded, sent, b.sweeps[sweep := o.(kinds := o.kinds[1..])])
  }

  function After(b: Book, events: seq<Event>): Book {
    if events == [] then b else Step(After(b, events[..|events| - 1]), events[|events| - 1])
  }

  const NONE := Book({}, [], map[])

  /** Of two reminders about one work the first says at risk and the second breached. */
  ghost predicate RiskThenBreach(sent: seq<Alert>) {
    forall i, j :: 0 <= i < j < |sent| && sent[i].work == sent[j].work ==> sent[i].kind.RiskAlert? && sent[j].kind.BreachAlert?
  }

  ghost predicate Inv(b: Book) {
    && RiskThenBreach(b.sent)
    && (forall a :: a in b.sent ==> a in b.recorded)
    && (forall a :: a in b.recorded && a.kind.BreachAlert? ==> a in b.sent && Alert(a.work, RiskAlert) in b.recorded)
    && (forall k :: k in b.sweeps ==> OwingOk(b.recorded, b.sweeps[k]))
  }

  ghost predicate OwingOk(recorded: set<Alert>, o: Owing) {
    || o.kinds == [] || o.kinds == [RiskAlert] || o.kinds == [RiskAlert, BreachAlert]
    || (o.kinds == [BreachAlert] && Alert(o.work, RiskAlert) in recorded)
  }

  lemma StepKeeps(b: Book, e: Event)
    requires Inv(b)
    ensures Inv(Step(b, e))
  {
    var b' := Step(b, e);
    forall k | k in b'.sweeps
      ensures OwingOk(b'.recorded, b'.sweeps[k])
    {
      assert k in b.sweeps ==> OwingOk(b.recorded, b.sweeps[k]);
    }
    if e.Advance? && e.sweep in b.sweeps && b.sweeps[e.sweep].kinds != [] {
      var o := b.sweeps[e.sweep];
      SendKeepsOrder(b, Alert(o.work, o.kinds[0]));
    }
  }

  lemma SendKeepsOrder(b: Book, a: Alert)
    requires Inv(b)
    ensures a !in b.recorded && (a.kind.BreachAlert? ==> Alert(a.work, RiskAlert) in b.recorded) ==> RiskThenBreach(b.sent + [a])
  {
    if a !in b.recorded {
      forall i | 0 <= i < |b.sent| && b.sent[i].work == a.work
        ensures b.sent[i].kind.RiskAlert? && a.kind.BreachAlert?
      {
        assert b.sent[i] in b.recorded && b.sent[i] != a;
      }
    }
  }

  /**
   * However many sweeps interleave, and however stale their readings: a work gets at
   * most one reminder of each kind, never one at risk after one breached, and a
   * breach is recorded exactly when its reminder was sent.
   */
  lemma {:induction false} RemindedOnce(events: seq<Event>)
    ensures var b := After(NONE, events);
      && Inv(b) && RiskThenBreach(b.sent)
      && forall w :: Alert(w, BreachAlert) in b.recorded <==> Alert(w, BreachAlert) in b.sent
    decreases |events|
  {
    if events != [] {
      RemindedOnce(events[..|events| - 1]);
      StepKeeps(After(NONE, events[..|events| - 1]), events[|events| - 1]);
    }
  }

  lemma OwedRows(work: WorkId, status: Status)
    ensures var owed := OwedSlaAlerts(status);
      (set i | 0 <= i < |owed| :: Alert(work, owed[i]))
        == (if status.AtRisk? || status.Breached? then {Alert(work, RiskAlert)} else {})
           + (if status.Breached? then {Alert(work, BreachAlert)} else {})
  {
    var owed := OwedSlaAlerts(status);
    var rows := set i | 0 <= i < |owed| :: Alert(work, owed[i]);
    if status.Breached? {
      assert owed[0] == RiskAlert && owed[1] == BreachAlert;
      assert Alert(work, owed[0]) in rows && Alert(work, owed[1]) in rows;
    } else if status.AtRisk? {
      assert owed[0] == RiskAlert;
      assert Alert(work, owed[0]) in rows;
    }
  }

  class AlertSweep {
    var recorded: set<Alert>
    var sent: seq<Alert>

    constructor ()
      ensures recorded == {} && sent == []
    {
      recorded, sent := {}, [];
    }

    method RecordAlert(a: Alert, sendThis: bool) returns (sentNow: bool)
      modifies this
      ensures (recorded, sent) == Record(old(recorded), old(sent), a, sendThis)
      ensures sentNow <==> |sent| == |old(sent)| + 1
    {
      var inserted := a !in recorded;
      recorded := recorded + {a};
      sentNow := inserted && sendThis;
      if sentNow {
        sent := sent + [a];
      }
    }

    /** One work of a sweep, undisturbed: everything owed is recorded, only the most severe is sent, and only once. */
    method SweepBug(work: WorkId, status: Status) returns (count: nat)
      modifies this
      ensures recorded == old(recorded)
        + (if status.AtRisk? || status.Breached? then {Alert(work, RiskAlert)} else {})
        + (if status.Breached? then {Alert(work, BreachAlert)} else {})
      ensures sent == old(sent)
        + (if status.Breached? && Alert(work, BreachAlert) !in old(recorded) then [Alert(work, BreachAlert)]
           else if status.AtRisk? && Alert(work, RiskAlert) !in old(recorded) then [Alert(work, RiskAlert)] else [])
      ensures count == |sent| - |old(sent)|
    {
      var owed := OwedSlaAlerts(status);
      count := 0;
      for n := 0 to |owed|
        invariant recorded == old(recorded) + (set i | 0 <= i < n :: Alert(work, owed[i]))
        invariant n < |owed| || owed == [] ==> sent == old(sent) && count == 0
        invariant n == |owed| > 0 ==>
          && sent == old(sent) + (if Alert(work, owed[n - 1]) !in old(recorded) then [Alert(work, owed[n - 1])] else [])
          && count == |sent| - |old(sent)|
      {
        var sentNow := RecordAlert(Alert(work, owed[n]), n == |owed| - 1);
        if sentNow {
          count := count + 1;
        }
      }
      OwedRows(work, status);
    }
  }
}
