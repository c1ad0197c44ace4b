/** Callers of the switch, written only against the contracts of module
    FunctionalSwitch: the switch mapped over a sequence of inputs, as a
    stream's `map` would use it, and one fluent configuration resolved
    against several values. */
module SwitchClients {

  import opened Options
  import opened SwitchSpec
  import opened FunctionalSwitch

  /** Applies the switch to each input in order. Each output is what the
      registered cases give for its own input; earlier inputs leave no trace. */
  method ApplyEach<T(==), R>(sw: Switch<T, R>, vs: seq<T>) returns (rs: seq<R>)
    requires sw.HasDefault()
    modifies sw
    ensures sw.singles == old(sw.singles) && sw.preds == old(sw.preds) && sw.dflt == old(sw.dflt)
    ensures |rs| == |vs|
    ensures forall i :: 0 <= i < |vs| ==>
              Dispatch(old(sw.singles), old(sw.preds), old(sw.dflt), vs[i]) == Some(rs[i])
  {
    rs := [];
    for i := 0 to |vs|
      invariant sw.singles == old(sw.singles) && sw.preds == old(sw.preds) && sw.dflt == old(sw.dflt)
      invariant |rs| == i
      invariant forall j :: 0 <= j < i ==> sw.Outcome(vs[j]) == Some(rs[j])
    {
      DefaultMakesTotal(sw.singles, sw.preds, sw.dflt.value, vs[i]);
      var r := sw.Apply(vs[i]);
      rs := rs + [r];
    }
  }

  /** A default "other", the single case 1 -> "one" and the predicate case
      x > 10 -> "big": 1, 20 and 5 give "one", "big" and "other"; after a
      predicate that also accepts 1 is appended, 1 still gives "one". */
  method ExampleScenario() returns (one: string, big: string, other: string, stillOne: string)
    ensures one == "one" && big == "big" && other == "other" && stillOne == "one"
  {
    var sw := new Switch<int, string>.Start();
    var step := sw.DefaultCase(x => "other");
    step := step.Single(1, x => "one");
    step := step.Predicate(x => x > 10, x => "big");
    var e := step.Build();
    one := e.ResolveValue(1);
    big := e.Apply(20);
    other := e.ResolveValue(5);
    step := e.Predicate(x => x == 1, x => "uno");
    stillOne := e.ResolveValue(1);
  }

}
