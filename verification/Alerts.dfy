/**
 * Alerts on the transitions of agents between healthy and degraded, and their delivery to every
 * sink.
 */
module Alerts {
  import opened Sequences
  import opened Wrappers

  datatype Verdict = Healthy | Idle | Hung | Stuck | Dead | Degraded(name: string)

  predicate IsDegraded(v: Verdict) {
    !v.Healthy? && !v.Idle?
  }

  function Label(v: Verdict): string {
    match v
    case Healthy => "healthy"
    case Idle => "idle"
    case Hung => "hung"
    case Stuck => "stuck"
    case Dead => "dead"
    case Degraded(name) => name
  }

  /** `signal` stands for the descriptive fields copied into the alert, `at` for the clock. */
  datatype Report = Report(agent: string, verdict: Verdict, signal: string, at: int)

  datatype AlertKind = Degradation | Recovery

  datatype Alert = Alert(agent: string, verdict: string, signal: string, kind: AlertKind, timestamp: int)

  /** One attempt to deliver an alert: the sink, and whether it took the alert. */
  datatype Attempt = Attempt(sink: nat, alert: Alert, delivered: bool)

  // ----- Transitions, on values

  predicate WasDegraded(last: map<string, Verdict>, agent: string) {
    agent in last && IsDegraded(last[agent])
  }

  function AlertFor(last: map<string, Verdict>, report: Report): Option<Alert> {
    var was, degraded := WasDegraded(last, report.agent), IsDegraded(report.verdict);
    if was == degraded then None
    else
      var kind := if degraded then Degradation else Recovery;
      Some(Alert(report.agent, Label(report.verdict), report.signal, kind, report.at))
  }

  function Verdicts(last: map<string, Verdict>, reports: seq<Report>): map<string, Verdict> {
    if reports == [] then last
    else
      var report := reports[|reports| - 1];
      Verdicts(last, reports[..|reports| - 1])[report.agent := report.verdict]
  }

  function AsSeq(alert: Option<Alert>): seq<Alert> {
    match alert
    case None => []
    case Some(a) => [a]
  }

  function AlertsOf(last: map<string, Verdict>, reports: seq<Report>): seq<Alert> {
    if reports == [] then []
    else
      var before := reports[..|reports| - 1];
      AlertsOf(last, before) + AsSeq(AlertFor(Verdicts(last, before), reports[|reports| - 1]))
  }

  /** Every sink in turn, whichever of them fail. */
  function AttemptsFor(alert: Alert, sinks: nat, fails: (nat, Alert) -> bool): seq<Attempt> {
    seq(sinks, i requires 0 <= i < sinks => Attempt(i, alert, !fails(i, alert)))
  }

  function AttemptsForAll(alerts: seq<Alert>, sinks: nat, fails: (nat, Alert) -> bool): seq<Attempt> {
    if alerts == [] then []
    else AttemptsForAll(alerts[..|alerts| - 1], sinks, fails) + AttemptsFor(alerts[|alerts| - 1], sinks, fails)
  }

  lemma AttemptsForMore(alerts: seq<Alert>, more: Option<Alert>, sinks: nat, fails: (nat, Alert) -> bool)
    ensures AttemptsForAll(alerts + AsSeq(more), sinks, fails)
         == AttemptsForAll(alerts, sinks, fails)
            + (if more.Some? then AttemptsFor(more.value, sinks, fails) else [])
  {
    if more.Some? {
      assert (alerts + [more.value])[..|alerts|] == alerts;
    } else {
      assert alerts + [] == alerts;
    }
  }

  /** What a manager with this many sinks attempts for the reports. */
  function AttemptsAfter(last: map<string, Verdict>, reports: seq<Report>, sinks: nat, fails: (nat, Alert) -> bool)
    : seq<Attempt>
  {
    AttemptsForAll(AlertsOf(last, reports), sinks, fails)
  }

  datatype Ledger = Ledger(last: map<string, Verdict>, attempts: seq<Attempt>)

  function Handled(b: Ledger, report: Report, sinks: nat, fails: (nat, Alert) -> bool): Ledger {
    var alert := AlertFor(b.last, report);
    Ledger(b.last[report.agent := report.verdict],
           b.attempts + if alert.Some? then AttemptsFor(alert.value, sinks, fails) else [])
  }

  function HandledAll(b: Ledger, reports: seq<Report>, sinks: nat, fails: (nat, Alert) -> bool): Ledger {
    if reports == [] then b
    else Handled(HandledAll(b, reports[..|reports| - 1], sinks, fails), reports[|reports| - 1], sinks, fails)
  }

  lemma {:induction false} HandledAllIs(b: Ledger, reports: seq<Report>, sinks: nat, fails: (nat, Alert) -> bool)
    ensures HandledAll(b, reports, sinks, fails).last == Verdicts(b.last, reports)
    ensures HandledAll(b, reports, sinks, fails).attempts
         == b.attempts + AttemptsAfter(b.last, reports, sinks, fails)
  {
    if reports != [] {
      var n := |reports| - 1;
      HandledAllIs(b, reports[..n], sinks, fails);
      var alert := AlertFor(Verdicts(b.last, reports[..n]), reports[n]);
      AttemptsForMore(AlertsOf(b.last, reports[..n]), alert, sinks, fails);
      AppendInTurn(b.attempts, AttemptsAfter(b.last, reports[..n], sinks, fails),
                   if alert.Some? then AttemptsFor(alert.value, sinks, fails) else []);
    }
  }

  // ----- The manager

  class AlertManager {
    const sinks: nat
    var lastVerdict: map<string, Verdict>
    var attempts: seq<Attempt>

    constructor (sinks: nat)
      ensures this.sinks == sinks && lastVerdict == map[] && attempts == []
    {
      this.sinks := sinks;
      lastVerdict, attempts := map[], [];
    }

    method TransitionAlert(report: Report) returns (alert: Option<Alert>)
      modifies this`lastVerdict
      ensures alert == AlertFor(old(lastVerdict), report)
      ensures lastVerdict == old(lastVerdict)[report.agent := report.verdict]
    {
      var isDegraded := IsDegraded(report.verdict);
      var wasDegraded := if report.agent in lastVerdict then IsDegraded(lastVerdict[report.agent]) else false;
      lastVerdict := lastVerdict[report.agent := report.verdict];
      var kind;
      if !wasDegraded && isDegraded {
        kind := Degradation;
      } else if wasDegraded && !isDegraded {
        kind := Recovery;
      } else {
        return None;
      }
      alert := Some(Alert(report.agent, Label(report.verdict), report.signal, kind, report.at));
    }

    method Dispatch(alert: Alert, fails: (nat, Alert) -> bool)
      modifies this`attempts
      ensures attempts == old(attempts) + AttemptsFor(alert, sinks, fails)
    {
      for i := 0 to sinks
        invariant attempts == old(attempts) + AttemptsFor(alert, sinks, fails)[..i]
      {
        var delivered := !fails(i, alert);
        attempts := attempts + [Attempt(i, alert, delivered)];
      }
    }

    method Handle(report: Report, fails: (nat, Alert) -> bool)
      modifies this`lastVerdict, this`attempts
      ensures Ledger(lastVerdict, attempts) == Handled(old(Ledger(lastVerdict, attempts)), report, sinks, fails)
    {
      var alert := TransitionAlert(report);
      if alert.Some? {
        Dispatch(alert.value, fails);
      }
    }

    method Observe(reports: seq<Report>, fails: (nat, Alert) -> bool)
      modifies this`lastVerdict, this`attempts
      ensures lastVerdict == Verdicts(old(lastVerdict), reports)
      ensures attempts == old(attempts) + AttemptsAfter(old(lastVerdict), reports, sinks, fails)
    {
      ghost var start := Ledger(lastVerdict, attempts);
      for i := 0 to |reports|
        invariant Ledger(lastVerdict, attempts) == HandledAll(start, reports[..i], sinks, fails)
      {
        assert reports[..i + 1][..i] == reports[..i];
        Handle(reports[i], fails);
      }
      assert reports[..|reports|] == reports;
      HandledAllIs(start, reports, sinks, fails);
    }
  }

  // ----- An agent's alerts depend on its own reports only

  function ReportsOf(reports: seq<Report>, agent: string): seq<Report> {
    if reports == [] then []
    else
      var rest, report := ReportsOf(reports[..|reports| - 1], agent), reports[|reports| - 1];
      if report.agent == agent then rest + [report] else rest
  }

  function AlertsAbout(alerts: seq<Alert>, agent: string): seq<Alert> {
    if alerts == [] then []
    else
      var rest, alert := AlertsAbout(alerts[..|alerts| - 1], agent), alerts[|alerts| - 1];
      if alert.agent == agent then rest + [alert] else rest
  }

  lemma AlertsAboutMore(alerts: seq<Alert>, more: Option<Alert>, agent: string)
    ensures AlertsAbout(alerts + AsSeq(more), agent)
         == AlertsAbout(alerts, agent) + (if more.Some? && more.value.agent == agent then [more.value] else [])
  {
    if more.Some? {
      assert (alerts + [more.value])[..|alerts|] == alerts;
    } else {
      assert alerts + [] == alerts;
    }
  }

  predicate SameFor(a: map<string, Verdict>, b: map<string, Verdict>, agent: string) {
    (agent in a <==> agent in b) && (agent in a ==> a[agent] == b[agent])
  }

  lemma {:induction false} AlertsAreIndependent(last: map<string, Verdict>, reports: seq<Report>, agent: string)
    ensures SameFor(Verdicts(last, reports), Verdicts(last, ReportsOf(reports, agent)), agent)
    ensures AlertsAbout(AlertsOf(last, reports), agent) == AlertsOf(last, ReportsOf(reports, agent))
  {
    if reports == [] { return; }
    var before, report := reports[..|reports| - 1], reports[|reports| - 1];
    AlertsAreIndependent(last, before, agent);
    AlertsAboutMore(AlertsOf(last, before), AlertFor(Verdicts(last, before), report), agent);
    var own := ReportsOf(before, agent);
    if report.agent == agent {
      assert (own + [report])[..|own|] == own;
    }
  }

  // ----- Alerts alternate

  ghost predicate Alternates(alerts: seq<Alert>) {
    forall i | 0 <= i < |alerts| :: alerts[i].kind == if i % 2 == 0 then Degradation else Recovery
  }

  ghost predicate OnlyAbout(reports: seq<Report>, agent: string) {
    forall i | 0 <= i < |reports| :: reports[i].agent == agent
  }

  lemma AlternationGoesOn(alerts: seq<Alert>, more: Option<Alert>)
    requires Alternates(alerts)
    requires more.Some? ==> more.value.kind == if |alerts| % 2 == 0 then Degradation else Recovery
    ensures Alternates(alerts + AsSeq(more))
    ensures |alerts + AsSeq(more)| == |alerts| + if more.Some? then 1 else 0
  {
  }

  /** From an agent that is not degraded: alternation, and the last alert tells the last verdict. */
  lemma {:induction false} OwnAlertsAlternate(last: map<string, Verdict>, reports: seq<Report>, agent: string)
    requires OnlyAbout(reports, agent) && !WasDegraded(last, agent)
    ensures var alerts := AlertsOf(last, reports);
            Alternates(alerts) && (|alerts| % 2 == 1 <==> WasDegraded(Verdicts(last, reports), agent))
  {
    if reports != [] {
      var before, report := reports[..|reports| - 1], reports[|reports| - 1];
      OwnAlertsAlternate(last, before, agent);
      AlternationGoesOn(AlertsOf(last, before), AlertFor(Verdicts(last, before), report));
    }
  }

  lemma LastOfAlternating(alerts: seq<Alert>)
    requires Alternates(alerts)
    ensures |alerts| % 2 == 1 <==> alerts != [] && alerts[|alerts| - 1].kind == Degradation
  {
  }

  lemma {:induction false} OwnReports(reports: seq<Report>, agent: string)
    ensures OnlyAbout(ReportsOf(reports, agent), agent)
  {
    if reports != [] {
      OwnReports(reports[..|reports| - 1], agent);
    }
  }

  /**
   * Whatever reports come, of whichever agents: each agent's alerts are degradation, recovery and so
   * on in turn, and it is degraded exactly when the last of them is a degradation.
   */
  lemma AlertsAlternate(last: map<string, Verdict>, reports: seq<Report>, agent: string)
    requires !WasDegraded(last, agent)
    ensures var alerts := AlertsAbout(AlertsOf(last, reports), agent);
            && Alternates(alerts)
            && (WasDegraded(Verdicts(last, reports), agent)
                <==> alerts != [] && alerts[|alerts| - 1].kind == Degradation)
  {
    AlertsAreIndependent(last, reports, agent);
    OwnReports(reports, agent);
    OwnAlertsAlternate(last, ReportsOf(reports, agent), agent);
    LastOfAlternating(AlertsAbout(AlertsOf(last, reports), agent));
  }

  ghost predicate LastOwn(reports: seq<Report>, agent: string, i: nat) {
    && i < |reports| && reports[i].agent == agent
    && forall j | i < j < |reports| :: reports[j].agent != agent
  }

  lemma {:induction false} VerdictIsLast(last: map<string, Verdict>, reports: seq<Report>, agent: string, i: nat)
    requires LastOwn(reports, agent, i)
    ensures agent in Verdicts(last, reports) && Verdicts(last, reports)[agent] == reports[i].verdict
    decreases |reports|
  {
    if i < |reports| - 1 {
      assert reports[|reports| - 1].agent != agent;
      VerdictIsLast(last, reports[..|reports| - 1], agent, i);
    }
  }

  /** The last alert about an agent says a degradation exactly when its last report is neither healthy nor idle. */
  lemma LastAlertTells(last: map<string, Verdict>, reports: seq<Report>, agent: string, i: nat)
    requires (agent in last ==> last[agent] in {Healthy, Idle}) && LastOwn(reports, agent, i)
    ensures var alerts := AlertsAbout(AlertsOf(last, reports), agent);
            reports[i].verdict !in {Healthy, Idle} <==> alerts != [] && alerts[|alerts| - 1].kind == Degradation
  {
    AlertsAlternate(last, reports, agent);
    VerdictIsLast(last, reports, agent, i);
  }

  // ----- Batches

  lemma {:induction false} VerdictsJoin(last: map<string, Verdict>, a: seq<Report>, b: seq<Report>)
    ensures Verdicts(last, a + b) == Verdicts(Verdicts(last, a), b)
    decreases |b|
  {
    if b == [] {
      assert a + b == a;
    } else {
      VerdictsJoin(last, a, b[..|b| - 1]);
      assert (a + b)[..|a + b| - 1] == a + b[..|b| - 1];
    }
  }

  /** Reports may be split into batches in any way. */
  lemma {:induction false} BatchesJoin(last: map<string, Verdict>, a: seq<Report>, b: seq<Report>)
    ensures AlertsOf(last, a + b) == AlertsOf(last, a) + AlertsOf(Verdicts(last, a), b)
    decreases |b|
  {
    if b == [] {
      assert a + b == a;
    } else {
      var c, report := b[..|b| - 1], b[|b| - 1];
      BatchesJoin(last, a, c);
      VerdictsJoin(last, a, c);
      assert (a + b)[..|a + b| - 1] == a + c;
      AppendInTurn(AlertsOf(last, a), AlertsOf(Verdicts(last, a), c), AsSeq(AlertFor(Verdicts(last, a + c), report)));
    }
  }

  // ----- Sinks

  function AttemptedAt(attempts: seq<Attempt>, sink: nat): seq<Alert> {
    if attempts == [] then []
    else
      var rest, last := AttemptedAt(attempts[..|attempts| - 1], sink), attempts[|attempts| - 1];
      if last.sink == sink then rest + [last.alert] else rest
  }

  lemma {:induction false} AttemptedAtJoin(a: seq<Attempt>, b: seq<Attempt>, sink: nat)
    ensures AttemptedAt(a + b, sink) == AttemptedAt(a, sink) + AttemptedAt(b, sink)
    decreases |b|
  {
    if b == [] {
      assert a + b == a;
    } else {
      AttemptedAtJoin(a, b[..|b| - 1], sink);
      assert (a + b)[..|a + b| - 1] == a + b[..|b| - 1];
    }
  }

  lemma {:induction false} OneAttemptEach(alert: Alert, sinks: nat, n: nat, fails: (nat, Alert) -> bool, sink: nat)
    requires n <= sinks
    ensures AttemptedAt(AttemptsFor(alert, sinks, fails)[..n], sink) == if sink < n then [alert] else []
    decreases n
  {
    if n > 0 {
      OneAttemptEach(alert, sinks, n - 1, fails, sink);
      var all := AttemptsFor(alert, sinks, fails);
      assert all[..n][..n - 1] == all[..n - 1];
    }
  }

  /** Every sink is handed every alert once and in order, whichever sinks fail. */
  lemma {:induction false} EverySinkIsTried(alerts: seq<Alert>, sinks: nat, fails: (nat, Alert) -> bool, sink: nat)
    requires sink < sinks
    ensures AttemptedAt(AttemptsForAll(alerts, sinks, fails), sink) == alerts
  {
    if alerts != [] {
      var before, alert := alerts[..|alerts| - 1], alerts[|alerts| - 1];
      EverySinkIsTried(before, sinks, fails, sink);
      OneAttemptEach(alert, sinks, sinks, fails, sink);
      assert AttemptsFor(alert, sinks, fails)[..sinks] == AttemptsFor(alert, sinks, fails);
      AttemptedAtJoin(AttemptsForAll(before, sinks, fails), AttemptsFor(alert, sinks, fails), sink);
    }
  }

  /** A recovery says `healthy` exactly when the agent is not merely idle. */
  lemma RecoveryLabel(last: map<string, Verdict>, report: Report)
    requires AlertFor(last, report).Some? && AlertFor(last, report).value.kind == Recovery
    ensures AlertFor(last, report).value.verdict == "healthy" <==> report.verdict.Healthy?
    ensures !report.verdict.Healthy? ==> AlertFor(last, report).value.verdict == "idle"
  {
  }
}
