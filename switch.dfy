/** The switch expression itself: one object whose fields the registration
    methods update in place and whose resolution methods read them. Every
    registration returns the same object, so chained calls act on one instance.

    The source narrows the object's type after each call (a stage that only
    accepts the default case, then a stage for registering cases and
    resolving, then one for resolving only). Those stages are not separate
    types here; what they protect is stated as preconditions: a value must be
    stored before `Resolve`, and the configuration must not reach an absent
    default (`HasDefault` suffices, see `Resolvable`). */
module FunctionalSwitch {

  import opened Options
  import opened SwitchSpec

  class Switch<T(==), R> {
    /** The value tested by `Resolve`; absent after `Start`. */
    var value: Option<T>
    /** Single-value cases, keyed by the value they match exactly. */
    var singles: map<T, T -> R>
    /** Predicate cases, in registration order. */
    var preds: seq<PredicateCase<T, R>>
    /** The default case; absent until `DefaultCase` is called. */
    var dflt: Option<T -> R>

    /** What the registered cases give for `v`; `None` marks the absent
        default being applied. */
    function Outcome(v: T): Option<R>
      reads this
    {
      Dispatch(singles, preds, dflt, v)
    }

    /** Resolving `v` does not reach the absent default. */
    predicate Resolvable(v: T)
      reads this
    {
      Outcome(v).Some?
    }

    predicate HasDefault()
      reads this
    {
      dflt.Some?
    }

    /** `of(value, clazz)`: a switch holding `v` and no cases. */
    constructor Of(v: T)
      ensures value == Some(v) && singles == map[] && preds == [] && dflt == None
    {
      value := Some(v);
      singles := map[];
      preds := [];
      dflt := None;
    }

    /** `start()`: a switch holding no value and no cases. */
    constructor Start()
      ensures value == None && singles == map[] && preds == [] && dflt == None
    {
      value := None;
      singles := map[];
      preds := [];
      dflt := None;
    }

    /** Sets the default case, replacing any earlier one. */
    method DefaultCase(f: T -> R) returns (s: Switch<T, R>)
      modifies this
      ensures s == this
      ensures dflt == Some(f)
      ensures value == old(value) && singles == old(singles) && preds == old(preds)
      ensures HasDefault() && forall v :: Resolvable(v)
    {
      dflt := Some(f);
      s := this;
    }

    /** Registers `f` for the exact key `k`; a later registration of `k`
        replaces the earlier one. */
    method Single(k: T, f: T -> R) returns (s: Switch<T, R>)
      modifies this
      ensures s == this
      ensures singles == old(singles)[k := f]
      ensures value == old(value) && preds == old(preds) && dflt == old(dflt)
      ensures Outcome(k) == Some(f(k))
      ensures forall v :: v != k ==> Outcome(v) == Dispatch(old(singles), old(preds), old(dflt), v)
    {
      singles := singles[k := f];
      s := this;
      forall v ensures Outcome(v) == if v == k then Some(f(k)) else Dispatch(old(singles), old(preds), old(dflt), v) {
        SingleEffect(old(singles), preds, dflt, k, f, v);
      }
    }

    /** Appends the case (`p`, `f`) after every predicate case already
        registered. */
    method Predicate(p: T -> bool, f: T -> R) returns (s: Switch<T, R>)
      modifies this
      ensures s == this
      ensures preds == old(preds) + [(p, f)]
      ensures value == old(value) && singles == old(singles) && dflt == old(dflt)
      ensures forall v :: Outcome(v) != Dispatch(old(singles), old(preds), old(dflt), v) ==>
                v !in singles && FirstMatch(old(preds), v).None? && p(v) && Outcome(v) == Some(f(v))
    {
      preds := preds + [(p, f)];
      s := this;
      forall v ensures Outcome(v) == if v !in singles && FirstMatch(old(preds), v).None? && p(v)
                                     then Some(f(v)) else Dispatch(old(singles), old(preds), old(dflt), v) {
        PredicateEffect(singles, old(preds), dflt, p, f, v);
      }
    }

    /** Ends configuration; the result is this same switch. */
    method Build() returns (s: Switch<T, R>)
      ensures s == this
    {
      s := this;
    }

    /** `resolve()`: the result for the stored value. A single-value case for
        it wins; otherwise the predicate cases and then the default decide. */
    method Resolve() returns (r: R)
      requires value.Some? && Resolvable(value.value)
      ensures Outcome(value.value) == Some(r)
    {
      var v := value.value;
      if v in singles {
        r := singles[v](v);
      } else {
        r := FindAndApplyFirstPredicate();
      }
    }

    /** `resolve(v)`: stores `v`, then resolves it. The result depends on `v`
        and the registered cases only, never on the value stored before. */
    method ResolveValue(v: T) returns (r: R)
      requires Resolvable(v)
      modifies this
      ensures value == Some(v)
      ensures singles == old(singles) && preds == old(preds) && dflt == old(dflt)
      ensures Dispatch(old(singles), old(preds), old(dflt), v) == Some(r)
    {
      value := Some(v);
      r := Resolve();
    }

    /** `apply(v)`: the switch used as a unary function; the same as
        `ResolveValue(v)`. */
    method Apply(v: T) returns (r: R)
      requires Resolvable(v)
      modifies this
      ensures value == Some(v)
      ensures singles == old(singles) && preds == old(preds) && dflt == old(dflt)
      ensures Dispatch(old(singles), old(preds), old(dflt), v) == Some(r)
    {
      r := ResolveValue(v);
    }

    /** The predicate cases are tried in registration order; the first that
        holds for the stored value gives the result and stops the scan. When
        none holds, the default is applied. */
    method FindAndApplyFirstPredicate() returns (r: R)
      requires value.Some? && Fallback(preds, dflt, value.value).Some?
      ensures Fallback(preds, dflt, value.value) == Some(r)
    {
      var v := value.value;
      for i := 0 to |preds|
        invariant forall j :: 0 <= j < i ==> !preds[j].0(v)
      {
        if preds[i].0(v) {
          FirstMatchIs(preds, v, i);
          return preds[i].1(v);
        }
      }
      r := dflt.value(v);
    }
  }

}
