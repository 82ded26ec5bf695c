/** The two record types of the alert engine: a rule, registered by a caller
    and owned by the engine for its firing state, and an alert, the record of
    one firing episode of a rule.  Both are heap objects, because the engine
    updates them in place and an alert points back at its rule. */
module AlertTypes {

  /** An optional value; models a Go pointer that may be nil. */
  datatype Option<T> = None | Some(value: T)

  /** An alert rule.  The descriptor (name, severity, threshold, duration) is
      never written by the engine; `firing` and `lastFired` are the engine's
      mutable state.  Time is a natural-number clock; 0 is Go's zero time. */
  class Rule {
    const name: string
    const severity: string
    const threshold: real
    const duration: int
    var firing: bool
    var lastFired: nat

    /** A rule literal: the condition callback is not part of the object,
        it is supplied per evaluation pass. */
    constructor (name: string, severity: string, threshold: real, duration: int,
                 firing: bool, lastFired: nat)
      ensures this.name == name && this.severity == severity
      ensures this.threshold == threshold && this.duration == duration
      ensures this.firing == firing && this.lastFired == lastFired
    {
      this.name := name;
      this.severity := severity;
      this.threshold := threshold;
      this.duration := duration;
      this.firing := firing;
      this.lastFired := lastFired;
    }
  }

  /** The text every alert carries: the rule name followed by " alert fired". */
  function FiredMessage(name: string): (m: string)
    ensures |m| == |name| + 12 && m[..|name|] == name
  {
    name + " alert fired"
  }

  /** The message splits into the rule name and the fixed suffix, and
      different names give different messages. */
  lemma FiredMessageParts(name: string, other: string)
    ensures FiredMessage(name)[|name|..] == " alert fired"
    ensures FiredMessage(name) == FiredMessage(other) <==> name == other
  {
  }

  /** One firing episode of a rule.  Only `resolvedAt` changes after creation. */
  class Alert {
    const rule: Rule
    const firedAt: nat
    var resolvedAt: Option<nat>
    const message: string

    /** The alert the engine stores when `rule` starts firing at `now`. */
    constructor (rule: Rule, now: nat)
      ensures this.rule == rule && firedAt == now
      ensures resolvedAt == None && message == FiredMessage(rule.name)
    {
      this.rule := rule;
      this.firedAt := now;
      this.resolvedAt := None;
      this.message := FiredMessage(rule.name);
    }
  }
}
