# Alert evaluation engine

A Dafny model of the stateful alert engine of the monitoring service: an
`AlertManager` holding an ordered, append-only registry of alert rules and an
alert store keyed by rule name. One evaluation pass walks the registry in
order. A rule whose condition holds while it is idle goes Idle -> Firing: it
is stamped, and a new alert replaces whatever is stored under its name. A
rule whose condition fails while it is firing goes Firing -> Idle, and the
alert stored under its name, if any, is resolved in place. The query returns
the stored alerts whose rule is firing at that moment.

Files:

- `alert_types.dfy` (module `AlertTypes`): the `Rule` and `Alert` classes,
  which are heap objects as in the source. An alert holds a reference to its
  rule. The descriptor fields are `const`. The engine-owned fields (`firing`,
  `lastFired`, `resolvedAt`) are `var`.
- `alert_spec.dfy` (module `AlertSpec`): the meaning of a pass as pure
  functions over an abstract `World`:
  - `Step` is one rule's transition.
  - `Pass` is `Step` folded over the registry in order.
  - `Fired` is the set of names that get a new alert.

  It also holds the lemmas about these functions.
- `alert_manager.dfy` (module `AlertEngine`): the `AlertManager` class.
  - `Evaluate` is a loop over the registry. From a heap that holds an
    abstract state `w0`, it is proved to leave the heap holding `Pass(w0)`.
  - `Visit` is the loop body at one registry position. `Transition`, `Fire`
    and `Resolve` are the rule's state changes within it.
  - `GetActiveAlerts` is a loop over the store's names, visited in an
    arbitrary order.
- `scenarios.dfy` (module `AlertScenarios`): client scenarios proved from
  the method contracts alone.

Modelling choices:

- The condition callbacks become `conds: seq<bool>`: one result per registry
  position, for this pass.
- `time.Now()` becomes a natural-number clock parameter `now`. One `now` is
  used for every timestamp of a pass. This covers both calls on the fire
  path (the rule's `LastFired` and the alert's `FiredAt`) and the
  resolution stamp.
- `ResolvedAt *time.Time` becomes `Option<nat>`.
- Go's zero `time.Time` becomes `0`.
- A rule object may be registered twice, and two rules may share a name.
  The source rejects neither. `Pass` handles both as written: a later
  position overrides an earlier one, and a resolving rule stamps whatever
  alert is stored under its name. The unique-rule facts are stated as
  corollaries (`FiredOfDistinct`, `PassFiringOfDistinct`, `PassIsolated`).

Behaviour of the code that a reader might not expect, kept as written:

- Rule names are not unique. Duplicates share one store key
  (`SharedNameScenario`).
- A failing condition is not isolated: the code has no fault handling, so a
  condition is just a boolean.
- An alert's `ResolvedAt` is not necessarily set only once. Another rule
  with the same name that stops firing stamps the stored alert again.
  `FiredAt <= ResolvedAt` still holds (`PassKeepsStoreInv`).

## Model

| member | source | states |
|---|---|---|
| `AlertTypes.Rule.constructor` | service/alerting.go:8-16 | a rule literal carries the given name, severity, threshold, duration, firing flag and last-fired time |
| `AlertTypes.Alert.constructor` | service/alerting.go:51-55 | a new alert refers to its rule, fired at `now`, unresolved, with message `Name + " alert fired"` |
| `AlertTypes.FiredMessage` | service/alerting.go:54 | the alert message begins with the rule name and is 12 characters longer |
| `AlertTypes.FiredMessageParts` | service/alerting.go:54 | after the rule name, the message is exactly " alert fired"; two messages are equal iff the names are |
| `AlertSpec.Step` | service/alerting.go:47-65 | after one rule's transition, its firing flag is the condition result, no rule is added or removed, and no store key disappears |
| `AlertSpec.Pass` | service/alerting.go:46-66 | a pass keeps the set of registered rules and never removes a store key |
| `AlertSpec.Fired` | service/alerting.go:47-55 | every name that gets a new alert in a pass is the name of a registered rule |
| `AlertSpec.PassStoreKeys` | service/alerting.go:42-66 | after a pass, the store's names are exactly the old names plus the names that fired: the key set only grows |
| `AlertSpec.FiredIff` | service/alerting.go:47-55 | a name fires in a pass iff some registry position with that name makes its rule go Idle -> Firing (both directions) |
| `AlertSpec.PassLeavesOthers` | service/alerting.go:46-66 | a rule object not in the registry keeps its firing flag and last-fired time |
| `AlertSpec.FiredOfDistinct` | service/alerting.go:46-56 | with no rule object registered twice, a name fires iff some rule of that name has its condition hold and was idle before the pass |
| `AlertSpec.PassFiringIsCondition` | service/alerting.go:46-66 | after a pass, a rule's firing flag equals the condition result at its last registry position |
| `AlertSpec.PassFiringOfDistinct` | service/alerting.go:46-66 | with no rule object registered twice, every rule's firing flag after a pass equals its condition result in that pass |
| `AlertSpec.StablePassIsIdentity` | service/alerting.go:47-58 | a pass whose condition results all match the current flags changes neither rules nor store |
| `AlertSpec.PassIdempotent` | service/alerting.go:46-66 | a second pass with the same condition results, at any clock value, leaves rules and store as the first pass left them |
| `AlertSpec.PassKeepsStoreInv` | service/alerting.go:51-62 | with a non-decreasing clock, every stored alert stays under its rule's name with the fixed message, and a resolved alert has `FiredAt <= ResolvedAt` |
| `AlertSpec.PassUntouched` | service/alerting.go:46-66 | rules of other objects and other names leave a rule's state and the store entry under its name unchanged |
| `AlertSpec.PassIsolated` | service/alerting.go:46-66 | a rule alone under its name ends a pass exactly as if it were evaluated by itself, whatever its registry position |
| `AlertSpec.FireThenResolve` | service/alerting.go:51-62 | a rule alone under its name, starting idle, whose condition goes true then false ends with one stored alert `(rule, t1, Some(t2), message)` with `FiredAt <= ResolvedAt`, and not firing |
| `AlertSpec.SharedNameScenario` | service/alerting.go:39-62 | two rules with one name: the later firing rule overwrites the entry, and a resolving rule stamps the other rule's alert while that rule keeps firing |
| `AlertEngine.AlertManager.constructor` | service/alerting.go:31-34 | the initial manager has no rules and an empty store |
| `AlertEngine.AlertManager.AddRule` | service/alerting.go:36-40 | the rule is appended at the end of the registry, earlier rules keep their order, and the store is untouched |
| `AlertEngine.AlertManager.Fire` | service/alerting.go:48-56 | Idle -> Firing: the rule is stamped and a fresh alert replaces the entry under its name; the heap then holds `Step` of its old state |
| `AlertEngine.AlertManager.Resolve` | service/alerting.go:58-64 | Firing -> Idle: the flag is cleared and the alert under the rule's name, if any, is resolved in place; the heap then holds `Step` of its old state |
| `AlertEngine.AlertManager.Transition` | service/alerting.go:47-65 | one loop iteration: the heap then holds `Step` of its old state, only a firing rule changes which alert object is stored under its own name, and a previously stored alert is either unchanged or resolved at `now` |
| `AlertEngine.AlertManager.Visit` | service/alerting.go:47-65 | the loop body at position `i`: the heap goes from holding the pass over positions `0..i-1` to holding the pass over `0..i`; a rule that starts firing adds its name to the fired names and stores a fresh alert under it; otherwise no name changes which alert object it holds; every alert object in `origin` (the store's alerts when the pass began), whether still stored or displaced, is unchanged or resolved at `now` |
| `AlertEngine.AlertManager.Evaluate` | service/alerting.go:42-67 | from a heap that holds `w0`, the heap afterwards holds `Pass(w0)` over the whole registry; the registry is unchanged; each fired name holds a fresh alert; every other stored name holds the alert object it held before, possibly resolved in place; an alert displaced by a re-fire is unchanged or resolved at `now` |
| `AlertEngine.AlertManager.GetActiveAlerts` | service/alerting.go:69-80 | returns exactly the stored alerts whose rule is firing now, each once, one per active name, and modifies nothing |
| `AlertScenarios.FreshManagerHasNoActiveAlerts` | service/alerting.go:31-34 | the query on a freshly constructed manager returns an empty list |
| `AlertScenarios.FireOnlyRule` | service/alerting.go:47-55 | a pass in which the only, idle rule fires stores exactly one new alert for it |
| `AlertScenarios.ResolveOnlyRule` | service/alerting.go:57-63 | a pass in which the only, firing rule stops firing resolves the same alert object in place |
| `AlertScenarios.FireThenResolveScenario` | service/alerting.go:42-80 | R1 fires: the query returns its one unresolved alert. R1 stops firing: the alert the caller still holds now carries `ResolvedAt`, and the query returns nothing |

## Left out

- The evaluation ticker (`startAlertEvaluation`, service/alerting.go:82-89) is a periodic goroutine. One call to `Evaluate` models one tick.
- The `sync.RWMutex` locking is left out. Its only role is mutual exclusion, so the model is sequential.
- The condition callbacks are foreign code. Each pass takes their results as `conds`, with one value per registry position.
- The model does not cover a condition that panics or blocks.
- `time.Now()` is a clock call. It becomes the `now` parameter. All timestamps of one pass are equal, whereas the source reads the clock separately at each of them.
- Wall-clock time going backwards is not modelled. Timestamp ordering is proved under the hypothesis that the clock does not decrease (`PassKeepsStoreInv`, `FireThenResolve`).
- `Threshold` and `Duration` are carried as opaque fields. The engine never reads them.
- Writes by other code to a rule's descriptor fields, or to an alert's `Rule`, `FiredAt` or `Message`, are not modelled. The engine never writes these fields, and the model makes them `const`.
- A nil rule passed to `AddRule` is not modelled. `Rule` references are non-null.
- `AlertSpec.PassIdempotent` assumes that every occurrence of the same rule object gets the same condition result. It calls the same callback. With differing results, a second pass can flip the flag again.
- service/alerts.go is the older log-only evaluator. Its only effect is logging, and it redeclares `AlertRule` and `startAlertEvaluation`.
- service/error_budget.go, service/slo.go, service/custom_metrics.go and service/summary.go are floating-point computations and metric registration on an external metrics library.
- service/main.go is HTTP serving and I/O.
- `AlertEngine.AlertManager.Evaluate` and `AlertEngine.AlertManager.Visit`: for an alert object pushed out of the store during the pass, they promise only that its `ResolvedAt` is unchanged or set to `now`. They do not say which. The source stamps such an alert only when a rule of its name resolved it earlier in the same pass.
