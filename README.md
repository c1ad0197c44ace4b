# functional-switch, modelled in Dafny

The repository is one class, `Switch<T, R>`: a switch expression that returns
a value and is configured by chained calls. It holds a tested value, a map from
exact keys to case functions, an ordered list of (predicate, function) cases
and one default function. Resolution follows three tiers. First, if the tested
value is a key of the map, that key's function is applied. Otherwise the
function of the first predicate in registration order that holds is applied.
Otherwise the default is applied.

The model has four modules:

- `Options` (options.dfy): the `Option` datatype. It stands for the fields the
  source leaves `null`: the tested value after `start()` and the default case
  before `defaultCase`.
- `SwitchSpec` (switch_spec.dfy): resolution as pure functions. `FirstMatch`
  finds the first predicate that holds. `Fallback` covers tiers two and three.
  `Dispatch` is the whole rule. `Selects` is an independent, declarative
  reading of the rule. The lemmas state the precedence and ordering rules and
  what each kind of registration changes.
- `FunctionalSwitch` (switch.dfy): the class `Switch`. Its fields `value`,
  `singles`, `preds` and `dflt` are updated in place by the registration
  methods. `Resolve` and the loop `FindAndApplyFirstPredicate` are proved to
  compute `Dispatch`.
- `SwitchClients` (switch_clients.dfy): callers written only against the
  class's contracts. One maps the switch over a sequence of inputs, as a
  stream's `map` would. The other configures a switch fluently and resolves it
  against several values.

Java's overloads `resolve()` and `resolve(T)` are `Resolve` and `ResolveValue`.
The static factories `of` and `start` are the named constructors `Of` and
`Start`.

A missing default is a null dereference in the source; `Dispatch` returns
`None` for exactly that case. The resolution methods require `Resolvable(v)`,
meaning that resolving `v` does not reach a missing default. In Java the staged
interfaces guarantee this, since `defaultCase` is the only call available after
`of` or `start`. `DefaultMakesTotal` proves that a registered default is enough.

## Model

| member | source | states |
|---|---|---|
| `SwitchSpec.FirstMatch` | src/main/java/fr/fxjavadevblog/fs/Switch.java:131-137 | The result is an index whose predicate holds for the value, and no earlier predicate holds. The result is `None` exactly when no predicate holds. |
| `SwitchSpec.FirstMatchIs` | src/main/java/fr/fxjavadevblog/fs/Switch.java:133-136 | The first match is unique: an index whose predicate holds, with none holding before it, is the one the scan stops at. |
| `SwitchSpec.FirstMatchAppend` | src/main/java/fr/fxjavadevblog/fs/Switch.java:159 | After appending predicates, an existing first match stays where it was. Otherwise the first match among the appended ones counts, shifted by the old length. |
| `SwitchSpec.DispatchSelects` | src/main/java/fr/fxjavadevblog/fs/Switch.java:99-140 | Resolution yields `r` if and only if the declarative three-tier rule selects `r`: the single case for the value, or the first predicate that holds, or the default when nothing matched. |
| `SwitchSpec.DispatchUndefinedIff` | src/main/java/fr/fxjavadevblog/fs/Switch.java:139 | Resolution reaches the missing (null) default if and only if the value is no key, no predicate holds and no default is registered. |
| `SwitchSpec.SinglePrecedence` | src/main/java/fr/fxjavadevblog/fs/Switch.java:101 | A key of the single-value map resolves to its own function applied to it, whatever predicates or default are registered, even predicates that hold. |
| `SwitchSpec.FirstPredicateWins` | src/main/java/fr/fxjavadevblog/fs/Switch.java:131-137 | For a value that is no key, the lowest-index predicate that holds decides. Predicates after it, and the default, can be replaced without changing the result. |
| `SwitchSpec.DefaultFallback` | src/main/java/fr/fxjavadevblog/fs/Switch.java:139 | A value that is no key and satisfies no predicate resolves to the default function applied to it. |
| `SwitchSpec.DefaultMakesTotal` | src/main/java/fr/fxjavadevblog/fs/Switch.java:89-93 | Once a default is registered, every value resolves without reaching a missing default. |
| `SwitchSpec.SingleEffect` | src/main/java/fr/fxjavadevblog/fs/Switch.java:146-150 | After registering `(k, f)`, `k` resolves to `f(k)` and every other value resolves as before. |
| `SwitchSpec.SingleLastWriteWins` | src/main/java/fr/fxjavadevblog/fs/Switch.java:148 | Registering a key twice leaves the same map as registering only the second function. The key then resolves through that second function. |
| `SwitchSpec.PredicateEffect` | src/main/java/fr/fxjavadevblog/fs/Switch.java:156-161 | An appended predicate case decides only the values that no key and no earlier predicate caught and that it accepts. Every other value resolves as before. |
| `SwitchSpec.DefaultEffect` | src/main/java/fr/fxjavadevblog/fs/Switch.java:89-93 | A new default decides only the values that no key and no predicate caught, and it replaces the earlier default for them. Every other value resolves as before. |
| `FunctionalSwitch.Switch.Of` | src/main/java/fr/fxjavadevblog/fs/Switch.java:67-72 | A new switch holds the given value, no single cases, no predicate cases and no default. |
| `FunctionalSwitch.Switch.Start` | src/main/java/fr/fxjavadevblog/fs/Switch.java:80-83 | A new switch holds no value and no cases of any kind. |
| `FunctionalSwitch.Switch.DefaultCase` | src/main/java/fr/fxjavadevblog/fs/Switch.java:89-93 | Returns the same object. Sets the default to `f`, replacing any earlier one, and leaves the other fields unchanged. Every value is then resolvable. |
| `FunctionalSwitch.Switch.Single` | src/main/java/fr/fxjavadevblog/fs/Switch.java:146-150 | Returns the same object. The map becomes the old map with `k` set to `f`; the other fields are unchanged. `k` now resolves to `f(k)` and every other value resolves as before. |
| `FunctionalSwitch.Switch.Predicate` | src/main/java/fr/fxjavadevblog/fs/Switch.java:156-161 | Returns the same object. The predicate list becomes the old list plus `(p, f)` at the end; the other fields are unchanged. A value resolves differently only if no earlier case caught it and `p` accepts it. |
| `FunctionalSwitch.Switch.Build` | src/main/java/fr/fxjavadevblog/fs/Switch.java:126-129 | Returns the same object. |
| `FunctionalSwitch.Switch.Resolve` | src/main/java/fr/fxjavadevblog/fs/Switch.java:99-102 | The result is what the three-tier rule gives for the stored value. |
| `FunctionalSwitch.Switch.ResolveValue` | src/main/java/fr/fxjavadevblog/fs/Switch.java:108-112 | Stores `v`, leaves the cases unchanged, and returns what the rule gives for `v`. The result does not depend on the value stored before. |
| `FunctionalSwitch.Switch.Apply` | src/main/java/fr/fxjavadevblog/fs/Switch.java:120-123 | Has the same contract as `ResolveValue`: the stored value becomes `v` and the result is what the rule gives for `v`. |
| `FunctionalSwitch.Switch.FindAndApplyFirstPredicate` | src/main/java/fr/fxjavadevblog/fs/Switch.java:131-140 | The loop returns the function of the first predicate that holds for the stored value, or the default's result when none holds. This equals tiers two and three of the rule. |
| `SwitchClients.ApplyEach` | src/main/java/fr/fxjavadevblog/fs/Switch.java:114-123 | Mapping the switch over inputs gives, at each position, what the rule gives for that input alone. The cases are unchanged. |
| `SwitchClients.ExampleScenario` | src/main/java/fr/fxjavadevblog/fs/Switch.java:99-112 | With default "other", single case 1 -> "one" and predicate case x > 10 -> "big", the values 1, 20 and 5 resolve to "one", "big" and "other". After a predicate accepting 1 is appended, 1 still resolves to "one". |

## Left out

- The staged interfaces `SwitchDefaultCase`, `SwitchStep` and `SwitchExpression` (Switch.java:23) are not part of this model. Their guarantee is stated as the precondition `Resolvable`, which `DefaultMakesTotal` shows a registered default meets.
- FunctionalSwitch.Switch.Resolve: requires a stored value. After `start()` the Java field is `null` and is passed to the cases as is; null values, keys and defaults are not modelled.
- FunctionalSwitch.Switch.ResolveValue, FunctionalSwitch.Switch.Apply, FunctionalSwitch.Switch.Resolve: require that resolution does not reach a missing default, where the Java code throws a `NullPointerException`. That case is described by `Dispatch` returning `None` (`DispatchUndefinedIff`).
- The `Class<R> clazz` argument of `of` is an unused type token, so `Of` takes only the value.
- User functions and predicates are total Dafny functions. Exceptions they might throw, and their propagation through `resolve`, are not modelled.
- Keys use Dafny equality. Java `equals`/`hashCode` semantics and keys mutated after insertion are not modelled.
- The `LinkedHashMap` insertion order is never observed by resolution, so the single cases are a plain `map`.
- Concurrent calls racing on the stored value in `resolve(T)` are not modelled; the model is sequential.

## Notes on the source

- A second `defaultCase` call is accepted and overwrites the first (Switch.java:91). The interface typing only makes `defaultCase` the first call; nothing at run time forbids a second one. `DefaultCase` models the overwrite.
- No run-time check guards a missing default: the code dereferences `null` (Switch.java:139). The model makes that case a precondition violation instead of a descriptive error.
