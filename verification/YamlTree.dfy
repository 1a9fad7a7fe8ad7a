/** The steps of a workflow as a tree: blocks inside steps, hooks inside steps, at any depth. */
module YamlTree {
  import opened Prelude
  import opened Yaml

  /** `x` is one of the steps, or inside one of them. */
  ghost predicate Within(x: YamlStep, ys: seq<YamlStep>)
    decreases ys
  {
    ys != [] && (WithinStep(x, ys[0]) || Within(x, ys[1..]))
  }

  /** `x` is the step, or in its block, or in one of its hooks. */
  ghost predicate WithinStep(x: YamlStep, y: YamlStep)
    decreases y, 1
  {
    || x == y
    || (y.parallel.Block? && Within(x, y.parallel.steps))
    || WithinHooks(x, y)
  }

  ghost predicate WithinHooks(x: YamlStep, y: YamlStep)
    decreases y, 0
  {
    || (y.onSuccess.Some? && WithinStep(x, y.onSuccess.value))
    || (y.onFailure.Some? && WithinStep(x, y.onFailure.value))
    || (y.ensure.Some? && WithinStep(x, y.ensure.value))
  }

  /** How many steps there are, at all depths. */
  function CountSteps(ys: seq<YamlStep>): nat
    decreases ys
  {
    if ys == [] then 0 else CountStep(ys[0]) + CountSteps(ys[1..])
  }

  function CountStep(y: YamlStep): nat
    decreases y
  {
    1 + (if y.parallel.Block? then CountSteps(y.parallel.steps) else 0)
    + (if y.onSuccess.Some? then CountStep(y.onSuccess.value) else 0)
    + (if y.onFailure.Some? then CountStep(y.onFailure.value) else 0)
    + (if y.ensure.Some? then CountStep(y.ensure.value) else 0)
  }

  predicate IsHookOf(h: Option<YamlStep>, y: YamlStep) { h == y.onSuccess || h == y.onFailure || h == y.ensure }

  lemma {:induction false} InsideHook(y: YamlStep, h: Option<YamlStep>, x: YamlStep)
    requires h.Some? && IsHookOf(h, y) && WithinStep(x, h.value)
    ensures WithinStep(x, y)
  {
    assert WithinHooks(x, y);
  }
}
