/** Client scenarios of the alert manager that pin down its observable
    behaviour from the contracts of its methods alone. */
module AlertScenarios {
  import opened AlertTypes
  import opened AlertSpec
  import opened AlertEngine

  /** A freshly constructed manager reports no active alerts. */
  method FreshManagerHasNoActiveAlerts() returns (active: seq<Alert>)
    ensures active == []
  {
    var m := new AlertManager();
    active := m.GetActiveAlerts();
    assert m.ActiveNames() == {};
  }

  /** Rule "R1" fires in a pass at `t1`: the query returns its one alert,
      unresolved.  Its condition then turns false in a pass at `t2`: the
      alert object the caller still holds has been resolved in place at
      `t2`, and the query no longer returns it. */
  method FireThenResolveScenario(t1: nat, t2: nat)
    returns (first: seq<Alert>, resolvedAtFirst: Option<nat>, second: seq<Alert>)
    ensures |first| == 1 && first[0].rule.name == "R1" && first[0].firedAt == t1
    ensures first[0].message == "R1 alert fired"
    ensures resolvedAtFirst == None
    ensures first[0].resolvedAt == Some(t2)
    ensures second == []
  {
    var m := new AlertManager();
    var r := new Rule("R1", "critical", 0.0, 0, false, 0);
    m.AddRule(r);
    var alert := FireOnlyRule(m, r, t1);
    first := m.GetActiveAlerts();
    assert m.ActiveNames() == {r.name};
    assert first[0] in first && m.alerts.Values == {alert};
    resolvedAtFirst := alert.resolvedAt;
    ResolveOnlyRule(m, r, alert, t2);
    second := m.GetActiveAlerts();
    assert m.ActiveNames() == {};
    R1Message();
  }

  /** A pass in which the only, idle, rule `r` of `m` fires at `now`. */
  method FireOnlyRule(m: AlertManager, r: Rule, now: nat) returns (alert: Alert)
    requires m.Valid() && m.rules == [r] && m.alerts == map[] && !r.firing
    modifies m, r
    ensures m.Valid() && m.rules == [r] && r.firing
    ensures m.alerts == map[r.name := alert] && View(alert) == NewAlert(r, now)
  {
    ghost var w0 := m.Snapshot();
    assert w0 == World(map[r := RuleState(false, r.lastFired)], map[]);
    m.SnapshotModels();
    m.Evaluate([true], now, w0);
    m.ModelsSnapshot(Pass(w0, [r], [true], now));
    PassSingle(w0, r, true, now);
    alert := m.alerts[r.name];
  }

  /** A pass in which the only, firing, rule `r` of `m`, whose alert is
      stored, stops firing at `now`. */
  method ResolveOnlyRule(m: AlertManager, r: Rule, alert: Alert, now: nat)
    requires m.Valid() && m.rules == [r] && m.alerts == map[r.name := alert] && r.firing
    modifies m, r, alert
    ensures m.Valid() && m.rules == [r] && !r.firing
    ensures m.alerts == map[r.name := alert] && View(alert) == old(View(alert)).(resolvedAt := Some(now))
  {
    ghost var w1 := m.Snapshot();
    assert w1 == World(map[r := RuleState(true, r.lastFired)], map[r.name := View(alert)]);
    m.SnapshotModels();
    m.Evaluate([false], now, w1);
    m.ModelsSnapshot(Pass(w1, [r], [false], now));
    PassSingle(w1, r, false, now);
    assert r.name !in Fired(w1, [r], [false], now);
    assert View(alert) == m.Snapshot().store[r.name];
  }

  lemma R1Message()
    ensures FiredMessage("R1") == "R1 alert fired"
  {
  }
}
