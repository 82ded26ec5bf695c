/** The alert manager: an ordered, append-only registry of rule objects and
    a store mapping each rule name to its current alert object.  Evaluation
    updates rules and alerts in place; the query reads the live firing flag
    of each stored alert's rule. */
module AlertEngine {
  import opened AlertTypes
  import opened AlertSpec

  /** The contents of an alert object, as the specification sees them. */
  ghost function View(a: Alert): AlertView
    reads a
  {
    AlertView(a.rule, a.firedAt, a.resolvedAt, a.message)
  }

  class AlertManager {
    var rules: seq<Rule>
    var alerts: map<string, Alert>

    /** Every stored alert belongs to a registered rule and sits under that
        rule's name with the fixed message. */
    ghost predicate Valid()
      reads this
    {
      && (forall name :: name in alerts ==>
            alerts[name].rule in rules && alerts[name].rule.name == name
            && alerts[name].message == FiredMessage(name))
    }

    /** The abstract state: engine-owned state of every registered rule and
        the contents of every stored alert. */
    ghost function Snapshot(): (w: World)
      reads this, rules, alerts.Values
      ensures forall r :: r in w.rules ==> r in rules
      ensures Registered(w, rules) && w.store.Keys == alerts.Keys
    {
      World(map r | r in rules :: RuleState(r.firing, r.lastFired),
            map name | name in alerts :: View(alerts[name]))
    }

    /** The heap holds the abstract state `w` whose rule keys are the
        registered rules. */
    ghost predicate Models(w: World)
      reads this, rules, alerts.Values
    {
      && (forall r :: r in w.rules ==> r in rules)
      && (forall r :: r in rules ==> r in w.rules && w.rules[r] == RuleState(r.firing, r.lastFired))
      && w.store.Keys == alerts.Keys
      && (forall name :: name in alerts ==> w.store[name] == View(alerts[name]))
    }

    /** The heap holds its own snapshot. */
    lemma SnapshotModels()
      ensures Models(Snapshot())
    {
    }

    /** The heap holds only one abstract state: its snapshot. */
    lemma ModelsSnapshot(w: World)
      requires Models(w)
      ensures Snapshot() == w
    {
      var s := Snapshot();
      assert s.rules.Keys == w.rules.Keys;
      assert s.store.Keys == w.store.Keys;
    }

    /** The initial manager: no rules and an empty store. */
    constructor ()
      ensures Valid() && rules == [] && alerts == map[]
    {
      rules := [];
      alerts := map[];
    }

    /** Appends `rule` to the registry; duplicates (by object or by name)
        are accepted.  The store is untouched. */
    method AddRule(rule: Rule)
      requires Valid()
      modifies this
      ensures Valid()
      ensures rules == old(rules) + [rule] && alerts == old(alerts)
    {
      rules := rules + [rule];
    }

    /** Idle -> Firing: stamps `rule` with `now` and stores a fresh alert
        for it under its name, replacing any previous entry. */
    method Fire(rule: Rule, now: nat, ghost w: World)
      requires Valid() && rule in rules && Models(w) && !rule.firing
      modifies this, rule
      ensures Valid() && rules == old(rules)
      ensures Models(Step(w, rule, true, now))
      ensures rule.name in alerts && fresh(alerts[rule.name])
      ensures alerts == old(alerts)[rule.name := alerts[rule.name]]
    {
      rule.firing := true;
      rule.lastFired := now;
      var alert := new Alert(rule, now);
      alerts := alerts[rule.name := alert];
      ghost var w' := World(w.rules[rule := RuleState(true, now)], w.store[rule.name := NewAlert(rule, now)]);
      assert Step(w, rule, true, now) == w';
      forall name | name in alerts
        ensures w'.store[name] == View(alerts[name])
      {
        if name != rule.name {
          assert alerts[name] == old(alerts[name]) && View(alerts[name]) == old(View(alerts[name]));
        }
      }
    }

    /** Firing -> Idle: clears the flag of `rule` and, when an alert is
        stored under its name, resolves that alert in place at `now`. */
    method Resolve(rule: Rule, now: nat, ghost w: World)
      requires Valid() && rule in rules && Models(w) && rule.firing
      modifies rule, if rule.name in alerts then {alerts[rule.name]} else {}
      ensures Models(Step(w, rule, false, now))
    {
      rule.firing := false;
      if rule.name in alerts {
        alerts[rule.name].resolvedAt := Some(now);
      }
    }

    /** The transition of one rule whose condition result is `c`, applied
        at clock `now` to a heap that holds `w`: afterwards the heap holds
        `Step(w, rule, c, now)`.  Only a rule that starts firing changes
        which alert object is stored, and only under its own name. */
    method Transition(rule: Rule, c: bool, now: nat, ghost w: World)
      requires Valid() && rule in rules && Models(w)
      modifies this, rule, if rule.name in alerts then {alerts[rule.name]} else {}
      ensures Valid() && rules == old(rules)
      ensures Models(Step(w, rule, c, now))
      ensures if c && !old(rule.firing)
              then fresh(alerts[rule.name]) && alerts == old(alerts)[rule.name := alerts[rule.name]]
              else alerts == old(alerts)
      ensures forall a :: a in old(alerts.Values) ==>
                a.resolvedAt == old(a.resolvedAt) || a.resolvedAt == Some(now)
    {
      if c {
        if !rule.firing {
          Fire(rule, now, w);
        }
      } else {
        if rule.firing {
          Resolve(rule, now, w);
        }
      }
    }

    /** The heap holds `w`, the pass from `w0` over the first `i` registry
        positions with condition results `conds`, and `fired` is the set of
        names that fired in it. */
    ghost predicate HoldsPrefix(w0: World, conds: seq<bool>, now: nat, i: nat,
                                w: World, fired: set<string>)
      reads this, rules, alerts.Values
    {
      // Bound to one name, so that a caller sees one fact, not its conjuncts.
      var holds := && |conds| == |rules| && i <= |rules| && Registered(w0, rules)
                   && w == Pass(w0, rules[..i], conds[..i], now) && Models(w)
                   && fired == Fired(w0, rules[..i], conds[..i], now);
      holds
    }

    /** The body of the evaluation loop at registry position `i`: the heap
        goes from holding the pass over the first `i` positions to holding
        the pass over the first `i + 1`.  When the rule at `i` starts firing,
        its name joins `fired` and a fresh alert is stored under it; no other
        name changes which alert object it holds.  Each alert of `origin`
        keeps its resolution stamp or gets `now`. */
    method Visit(i: nat, conds: seq<bool>, now: nat, ghost w0: World, ghost w: World,
                 ghost fired: set<string>, ghost origin: set<Alert>)
      returns (ghost w': World, ghost fired': set<string>)
      requires Valid() && i < |rules| && HoldsPrefix(w0, conds, now, i, w, fired)
      modifies this, rules[i], alerts.Values
      ensures Valid() && rules == old(rules) && HoldsPrefix(w0, conds, now, i + 1, w', fired')
      ensures if conds[i] && !old(rules[i].firing)
              then fired' == fired + {rules[i].name} && rules[i].name in alerts
                   && fresh(alerts[rules[i].name])
                   && alerts == old(alerts)[rules[i].name := alerts[rules[i].name]]
              else fired' == fired && alerts == old(alerts)
      ensures forall a :: a in origin ==>
                a.resolvedAt == old(a.resolvedAt) || a.resolvedAt == Some(now)
    {
      PassExtend(w0, rules, conds, now, i);
      var rule := rules[i];
      ghost var fires := conds[i] && !rule.firing;
      Transition(rule, conds[i], now, w);
      w' := Step(w, rule, conds[i], now);
      fired' := if fires then fired + {rule.name} else fired;
    }

    /** One evaluation pass.  `conds[i]` is the result of the condition of
        `rules[i]` in this pass, `now` is the clock reading used for every
        timestamp of the pass, and `w0` is the abstract state the heap holds
        beforehand.  Afterwards the heap holds `Pass(w0, ...)`; a name that
        fired holds a fresh alert object, every other stored name holds the
        alert object it held before (possibly resolved in place). */
    method Evaluate(conds: seq<bool>, now: nat, ghost w0: World)
      requires Valid() && |conds| == |rules| && Models(w0)
      modifies this, rules, alerts.Values
      ensures Valid() && rules == old(rules)
      ensures Models(Pass(w0, rules, conds, now))
      ensures forall name :: name in alerts ==>
                if name in Fired(w0, rules, conds, now) then fresh(alerts[name])
                else name in old(alerts) && alerts[name] == old(alerts)[name]
      ensures forall a :: a in old(alerts.Values) ==>
                a.resolvedAt == old(a.resolvedAt) || a.resolvedAt == Some(now)
    {
      ghost var w := w0;
      ghost var fired: set<string> := {};
      ghost var origin := alerts.Values;
      for i := 0 to |rules|
        invariant rules == old(rules) && Valid() && HoldsPrefix(w0, conds, now, i, w, fired)
        invariant forall name :: name in alerts ==>
                    if name in fired then fresh(alerts[name])
                    else name in old(alerts) && alerts[name] == old(alerts)[name]
        invariant forall a :: a in origin ==>
                    a.resolvedAt == old(a.resolvedAt) || a.resolvedAt == Some(now)
      {
        w, fired := Visit(i, conds, now, w0, w, fired, origin);
      }
      assert rules[..|rules|] == rules && conds[..|conds|] == conds;
    }

    /** The names whose stored alert belongs to a rule that is firing now. */
    ghost function ActiveNames(): (names: set<string>)
      requires Valid()
      reads this, rules
      ensures names <= alerts.Keys
    {
      set name | name in alerts && alerts[name].rule.firing
    }

    /** The stored alerts whose rule is firing right now, one per such name,
        in the arbitrary order in which the store's names are visited.
        Changes nothing. */
    method GetActiveAlerts() returns (active: seq<Alert>)
      requires Valid()
      ensures forall a :: a in active <==> a in alerts.Values && a.rule.firing
      ensures forall i, j :: 0 <= i < j < |active| ==> active[i] != active[j]
      ensures |active| == |ActiveNames()|
    {
      active := [];
      var pending := alerts.Keys;
      ghost var seen: set<string> := {};
      while pending != {}
        invariant pending <= alerts.Keys
        invariant forall name :: name in seen <==>
                    name in alerts && name !in pending && alerts[name].rule.firing
        invariant forall a :: a in active <==>
                    exists name :: name in seen && alerts[name] == a
        invariant forall i, j :: 0 <= i < j < |active| ==> active[i] != active[j]
        invariant |active| == |seen|
        decreases |pending|
      {
        var name :| name in pending;
        var alert := alerts[name];
        if alert.rule.firing {
          assert alert !in active;
          active := active + [alert];
          seen := seen + {name};
        }
        pending := pending - {name};
      }
      assert seen == ActiveNames();
    }
  }
}
