/** Putting runs of the pipeline together and taking them apart. */
module PipelineRuns {
  import opened Basics
  import opened Pipeline

  ghost predicate Runs(c: Settings, w: World, steps: seq<Step>, v: World) {
    Exec(c, w, steps) == Some(v)
  }

  lemma OneStep(c: Settings, w: World, s: Step, v: World)
    requires Next(c, w, s) == Some(v)
    ensures Runs(c, w, [s], v)
  {
    assert [s][..0] == [];
  }

  lemma LastStep(c: Settings, w: World, steps: seq<Step>, s: Step)
    ensures Exec(c, w, steps + [s]) ==
            (var before := Exec(c, w, steps); if before.None? then None else Next(c, before.value, s))
  {
    assert (steps + [s])[..|steps|] == steps;
  }

  lemma {:induction false} Chain(c: Settings, w: World, a: seq<Step>, x: World, b: seq<Step>, v: World)
    requires Runs(c, w, a, x) && Runs(c, x, b, v)
    ensures Runs(c, w, a + b, v)
    decreases |b|
  {
    if b == [] {
      assert a + b == a;
    } else {
      var shorter, s := b[..|b| - 1], b[|b| - 1];
      assert b == shorter + [s] && a + b == (a + shorter) + [s];
      LastStep(c, x, shorter, s);
      Chain(c, w, a, x, shorter, Exec(c, x, shorter).value);
      LastStep(c, w, a + shorter, s);
    }
  }

  lemma TwoSteps(c: Settings, w: World, s: Step, x: World, t: Step, v: World) returns (steps: seq<Step>)
    requires Next(c, w, s) == Some(x) && Next(c, x, t) == Some(v)
    ensures Runs(c, w, steps, v) && steps == [s] + [t]
  {
    OneStep(c, w, s, x);
    OneStep(c, x, t, v);
    Chain(c, w, [s], x, [t], v);
    steps := [s] + [t];
  }

  lemma StepThen(c: Settings, w: World, s: Step, x: World, rest: seq<Step>, v: World) returns (steps: seq<Step>)
    requires Next(c, w, s) == Some(x) && Runs(c, x, rest, v)
    ensures Runs(c, w, steps, v) && steps == [s] + rest
  {
    OneStep(c, w, s, x);
    Chain(c, w, [s], x, rest, v);
    steps := [s] + rest;
  }

  lemma Extended(c: Settings, w: World, steps: seq<Step>, x: World, s: Step, v: World) returns (longer: seq<Step>)
    requires Runs(c, w, steps, x) && Next(c, x, s) == Some(v)
    ensures Runs(c, w, longer, v) && longer == steps + [s]
  {
    OneStep(c, x, s, v);
    Chain(c, w, steps, x, [s], v);
    longer := steps + [s];
  }

  lemma Onward(c: Settings, w: World, a: seq<Step>, x: World, b: seq<Step>, v: World) returns (steps: seq<Step>)
    requires Runs(c, w, a, x) && Untampered(a) && Runs(c, x, b, v) && Untampered(b)
    ensures Runs(c, w, steps, v) && Untampered(steps)
  {
    Chain(c, w, a, x, b, v);
    steps := a + b;
  }

  /** One of the steps of the run is one that `q` describes, in the state it was taken in. */
  ghost predicate Happened(c: Settings, w: World, steps: seq<Step>, q: (World, Step) -> bool)
    decreases |steps|
  {
    if steps == [] then false
    else
      var before := Exec(c, w, steps[..|steps| - 1]);
      || (before.Some? && q(before.value, steps[|steps| - 1]))
      || Happened(c, w, steps[..|steps| - 1], q)
  }
}
