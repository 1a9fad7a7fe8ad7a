/** Validation of parsed workflows (wfe-yaml/src/validation.rs): step names and shapes, references between the
    workflows of a batch, and what an accepted batch guarantees about its compiled definitions. */
module Validation {
  import opened Prelude
  import opened Yaml
  import opened Layout
  import opened StepKeys
  import opened YamlTree
  import CycleDetection

  /** The checks that are taken as given: the executor-specific configuration of a step, and the conditions and
      declared outputs of a workflow. */
  datatype Checks = Checks(configOk: YamlStep -> bool, conditionsOk: WorkflowSpec -> bool)

  type ValidationError = string

  // ----- step names and shapes -----

  /** Every step name, in the order in which validation meets it: the step, its children, its hooks. */
  function AllNames(ys: seq<YamlStep>): seq<string>
    decreases ys
  {
    if ys == [] then [] else StepNames(ys[0]) + AllNames(ys[1..])
  }

  function StepNames(y: YamlStep): seq<string>
    decreases y, 1
  {
    OwnNames(y) + (HookNames(y.onSuccess) + HookNames(y.onFailure) + HookNames(y.ensure))
  }

  /** A step's name and those of its children. */
  function OwnNames(y: YamlStep): seq<string>
    decreases y, 0
  {
    [y.name] + if y.parallel.Block? then AllNames(y.parallel.steps) else []
  }

  function HookNames(h: Option<YamlStep>): seq<string>
    decreases h
  {
    if h.Some? then StepNames(h.value) else []
  }

  const ERROR_BEHAVIORS: set<string> := {"retry", "suspend", "terminate", "compensate"}

  /** A step that passes on its own: exactly one of `type` and `parallel`; a sub-workflow step names its workflow; a
      known error behaviour. */
  predicate Shaped(checks: Checks, y: YamlStep) {
    && y.stepType.Some? != y.parallel.Block?
    && checks.configOk(y)
    && (y.stepType == Some("workflow") ==> y.config.Some? && y.config.value.childWorkflow.Some?)
    && (y.errorBehavior.Some? ==> y.errorBehavior.value in ERROR_BEHAVIORS)
  }

  predicate WellShaped(checks: Checks, ys: seq<YamlStep>)
    decreases ys
  {
    ys != [] ==> StepShaped(checks, ys[0]) && WellShaped(checks, ys[1..])
  }

  predicate StepShaped(checks: Checks, y: YamlStep)
    decreases y
  {
    && Shaped(checks, y)
    && (y.parallel.Block? ==> WellShaped(checks, y.parallel.steps))
    && (y.onSuccess.Some? ==> StepShaped(checks, y.onSuccess.value))
    && (y.onFailure.Some? ==> StepShaped(checks, y.onFailure.value))
    && (y.ensure.Some? ==> StepShaped(checks, y.ensure.value))
  }

  method ValidateSteps(checks: Checks, steps: seq<YamlStep>, seen0: set<string>)
    returns (r: Result<set<string>, ValidationError>)
    ensures r.Ok? <==> Fresh(AllNames(steps), seen0) && WellShaped(checks, steps)
    ensures r.Ok? ==> r.value == seen0 + Elems(AllNames(steps))
    decreases steps, 0
  {
    var seen := seen0;
    for i := 0 to |steps|
      invariant Fresh(AllNames(steps[..i]), seen0) && WellShaped(checks, steps[..i])
      invariant seen == seen0 + Elems(AllNames(steps[..i]))
    {
      NextNames(checks, steps, i, seen0);
      var one := ValidateStep(checks, steps[i], seen);
      if one.Err? {
        return Err(one.error);
      }
      seen := one.value;
    }
    assert steps[..|steps|] == steps;
    return Ok(seen);
  }

  lemma {:induction false} SplitNames(checks: Checks, ys: seq<YamlStep>, i: nat)
    requires i <= |ys|
    ensures AllNames(ys) == AllNames(ys[..i]) + AllNames(ys[i..])
    ensures WellShaped(checks, ys) <==> WellShaped(checks, ys[..i]) && WellShaped(checks, ys[i..])
    decreases i
  {
    if i == 0 {
      assert ys[0..] == ys;
    } else {
      assert ys[..i][1..] == ys[1..][..i - 1] && ys[1..][i - 1..] == ys[i..];
      SplitNames(checks, ys[1..], i - 1);
    }
  }

  /** What one more step adds to the names and the shape of a list of steps. */
  lemma {:induction false} NextNames(checks: Checks, ys: seq<YamlStep>, i: nat, seen: set<string>)
    requires i < |ys| && Fresh(AllNames(ys[..i]), seen) && WellShaped(checks, ys[..i])
    ensures Fresh(AllNames(ys), seen) && WellShaped(checks, ys) ==>
              Fresh(StepNames(ys[i]), seen + Elems(AllNames(ys[..i]))) && StepShaped(checks, ys[i])
    ensures Fresh(StepNames(ys[i]), seen + Elems(AllNames(ys[..i]))) && StepShaped(checks, ys[i]) ==>
              Fresh(AllNames(ys[..i + 1]), seen) && WellShaped(checks, ys[..i + 1])
    ensures Elems(AllNames(ys[..i + 1])) == Elems(AllNames(ys[..i])) + Elems(StepNames(ys[i]))
  {
    SplitNames(checks, ys, i + 1);
    SplitNames(checks, ys[..i + 1], i);
    assert ys[..i + 1][..i] == ys[..i] && ys[..i + 1][i..] == [ys[i]];
    assert AllNames([ys[i]]) == StepNames(ys[i]) + [] == StepNames(ys[i]);
    FreshConcat(AllNames(ys[..i]), StepNames(ys[i]), seen);
    FreshConcat(AllNames(ys[..i + 1]), AllNames(ys[i + 1..]), seen);
  }

  method ValidateStep(checks: Checks, y: YamlStep, seen0: set<string>)
    returns (r: Result<set<string>, ValidationError>)
    ensures r.Ok? <==> Fresh(StepNames(y), seen0) && StepShaped(checks, y)
    ensures r.Ok? ==> r.value == seen0 + Elems(StepNames(y))
    decreases y, 2
  {
    ghost var hooks := HookNames(y.onSuccess) + HookNames(y.onFailure) + HookNames(y.ensure);
    FreshConcat(OwnNames(y), hooks, seen0);
    r := ValidateOwn(checks, y, seen0);
    if r.Ok? {
      r := ValidateHooks(checks, y, r.value);
    }
  }

  method ValidateOwn(checks: Checks, y: YamlStep, seen0: set<string>)
    returns (r: Result<set<string>, ValidationError>)
    ensures r.Ok? <==> Fresh(OwnNames(y), seen0) && Shaped(checks, y)
                       && (y.parallel.Block? ==> WellShaped(checks, y.parallel.steps))
    ensures r.Ok? ==> r.value == seen0 + Elems(OwnNames(y))
    decreases y, 1
  {
    ghost var kids := if y.parallel.Block? then AllNames(y.parallel.steps) else [];
    FreshConcat([y.name], kids, seen0);
    assert Fresh([y.name], seen0) <==> y.name !in seen0;
    assert Elems([y.name]) == {y.name};
    if y.name in seen0 {
      return Err(y.name);
    }
    var seen := seen0 + {y.name};
    var hasType, hasParallel := y.stepType.Some?, y.parallel.Block?;
    if !hasType && !hasParallel {
      return Err("must have either type or parallel");
    }
    if hasType && hasParallel {
      return Err("cannot have both type and parallel");
    }
    if !checks.configOk(y) {
      return Err("config");
    }
    if y.stepType == Some("workflow") {
      if y.config.None? {
        return Err("must have a config section");
      }
      if y.config.value.childWorkflow.None? {
        return Err("must have config.workflow");
      }
    }
    if y.errorBehavior.Some? && y.errorBehavior.value !in ERROR_BEHAVIORS {
      return Err("Invalid error behavior type");
    }
    if !hasParallel {
      return Ok(seen);
    }
    r := ValidateSteps(checks, y.parallel.steps, seen);
  }

  method ValidateHooks(checks: Checks, y: YamlStep, seen0: set<string>)
    returns (r: Result<set<string>, ValidationError>)
    ensures r.Ok? <==>
      && Fresh(HookNames(y.onSuccess) + HookNames(y.onFailure) + HookNames(y.ensure), seen0)
      && (y.onSuccess.Some? ==> StepShaped(checks, y.onSuccess.value))
      && (y.onFailure.Some? ==> StepShaped(checks, y.onFailure.value))
      && (y.ensure.Some? ==> StepShaped(checks, y.ensure.value))
    ensures r.Ok? ==> r.value == seen0 + Elems(HookNames(y.onSuccess) + HookNames(y.onFailure) + HookNames(y.ensure))
    decreases y, 1
  {
    ghost var s, f, e := HookNames(y.onSuccess), HookNames(y.onFailure), HookNames(y.ensure);
    FreshConcat(s + f, e, seen0);
    FreshConcat(s, f, seen0);
    r := ValidateHook(checks, y.onSuccess, seen0, y);
    if r.Ok? {
      r := ValidateHook(checks, y.onFailure, r.value, y);
      if r.Ok? {
        r := ValidateHook(checks, y.ensure, r.value, y);
      }
    }
  }

  method ValidateHook(checks: Checks, hook: Option<YamlStep>, seen: set<string>, ghost owner: YamlStep)
    returns (r: Result<set<string>, ValidationError>)
    requires hook.Some? ==> hook == owner.onSuccess || hook == owner.onFailure || hook == owner.ensure
    ensures r.Ok? <==> Fresh(HookNames(hook), seen) && (hook.Some? ==> StepShaped(checks, hook.value))
    ensures r.Ok? ==> r.value == seen + Elems(HookNames(hook))
    decreases owner, 0
  {
    if hook.None? {
      return Ok(seen);
    }
    r := ValidateStep(checks, hook.value, seen);
  }

  // ----- names and shapes, said of the tree of steps -----

  /** All steps inside pass on their own. */
  ghost predicate AllShaped(checks: Checks, ys: seq<YamlStep>) { forall x :: Within(x, ys) ==> Shaped(checks, x) }

  lemma {:induction false} ShapedInside(checks: Checks, ys: seq<YamlStep>, x: YamlStep)
    requires WellShaped(checks, ys) && Within(x, ys)
    ensures Shaped(checks, x)
    decreases ys
  {
    if WithinStep(x, ys[0]) { StepShapedInside(checks, ys[0], x); } else { ShapedInside(checks, ys[1..], x); }
  }

  lemma {:induction false} StepShapedInside(checks: Checks, y: YamlStep, x: YamlStep)
    requires StepShaped(checks, y) && WithinStep(x, y)
    ensures Shaped(checks, x)
    decreases y
  {
    if x != y {
      if y.parallel.Block? && Within(x, y.parallel.steps) {
        ShapedInside(checks, y.parallel.steps, x);
      } else if y.onSuccess.Some? && WithinStep(x, y.onSuccess.value) {
        StepShapedInside(checks, y.onSuccess.value, x);
      } else if y.onFailure.Some? && WithinStep(x, y.onFailure.value) {
        StepShapedInside(checks, y.onFailure.value, x);
      } else {
        StepShapedInside(checks, y.ensure.value, x);
      }
    }
  }

  lemma {:induction false} AllInsideShaped(checks: Checks, ys: seq<YamlStep>)
    requires forall x :: Within(x, ys) ==> Shaped(checks, x)
    ensures WellShaped(checks, ys)
    decreases ys
  {
    if ys != [] {
      assert forall x :: WithinStep(x, ys[0]) ==> Within(x, ys);
      AllInsideStepShaped(checks, ys[0]);
      AllInsideShaped(checks, ys[1..]);
    }
  }

  lemma {:induction false} AllInsideStepShaped(checks: Checks, y: YamlStep)
    requires forall x :: WithinStep(x, y) ==> Shaped(checks, x)
    ensures StepShaped(checks, y)
    decreases y, 1
  {
    assert WithinStep(y, y);
    if y.parallel.Block? { AllInsideShaped(checks, y.parallel.steps); }
    AllInsideHookShaped(checks, y, y.onSuccess);
    AllInsideHookShaped(checks, y, y.onFailure);
    AllInsideHookShaped(checks, y, y.ensure);
  }

  lemma {:induction false} AllInsideHookShaped(checks: Checks, y: YamlStep, h: Option<YamlStep>)
    requires IsHookOf(h, y) && forall x :: WithinStep(x, y) ==> Shaped(checks, x)
    ensures h.Some? ==> StepShaped(checks, h.value)
    decreases y, 0
  {
    if h.Some? {
      forall x | WithinStep(x, h.value) ensures Shaped(checks, x) { YamlTree.InsideHook(y, h, x); }
      AllInsideStepShaped(checks, h.value);
    }
  }

  /** Validation looks at every step, at any depth. */
  lemma {:induction false} ShapesExactly(checks: Checks, ys: seq<YamlStep>)
    ensures WellShaped(checks, ys) <==> AllShaped(checks, ys)
  {
    if WellShaped(checks, ys) {
      forall x | Within(x, ys) ensures Shaped(checks, x) { ShapedInside(checks, ys, x); }
    } else if AllShaped(checks, ys) {
      AllInsideShaped(checks, ys);
    }
  }

  /** What passes is what can be compiled: the checks of a step agree with how it is built and with how its error
      behaviour is translated. */
  lemma {:induction false} ShapedMeansBuildable(checks: Checks, t: Translation, ex: Executors, y: YamlStep)
    requires Standard(t, ex) && StandardErrors(t)
    ensures Shaped(checks, y) <==>
              && (y.stepType.None? <==> y.parallel.Block?) && checks.configOk(y)
              && (y.stepType == Some("workflow") ==> t.build(y).Ok?)
              && (y.errorBehavior.Some? ==> t.mapError(y.errorBehavior.value).Ok?)
  {
    assert t.build(y) == BuildStep(ex, y);
    if y.stepType == Some("workflow") { WorkflowStepBuilt(ex, y); }
  }

  lemma {:induction false} NameInside(ys: seq<YamlStep>, n: string) returns (x: YamlStep)
    requires n in AllNames(ys)
    ensures Within(x, ys) && x.name == n
    decreases ys
  {
    if n in StepNames(ys[0]) { x := StepNameInside(ys[0], n); } else { x := NameInside(ys[1..], n); }
  }

  lemma {:induction false} StepNameInside(y: YamlStep, n: string) returns (x: YamlStep)
    requires n in StepNames(y)
    ensures WithinStep(x, y) && x.name == n
    decreases y
  {
    if n == y.name {
      x := y;
    } else if y.parallel.Block? && n in AllNames(y.parallel.steps) {
      x := NameInside(y.parallel.steps, n);
    } else if y.onSuccess.Some? && n in HookNames(y.onSuccess) {
      x := StepNameInside(y.onSuccess.value, n);
    } else if y.onFailure.Some? && n in HookNames(y.onFailure) {
      x := StepNameInside(y.onFailure.value, n);
    } else {
      assert n in HookNames(y.ensure);
      x := StepNameInside(y.ensure.value, n);
    }
  }

  lemma {:induction false} InsideNamed(ys: seq<YamlStep>, x: YamlStep)
    requires Within(x, ys)
    ensures x.name in AllNames(ys)
    decreases ys
  {
    if WithinStep(x, ys[0]) { InsideStepNamed(ys[0], x); } else { InsideNamed(ys[1..], x); }
  }

  lemma {:induction false} InsideStepNamed(y: YamlStep, x: YamlStep)
    requires WithinStep(x, y)
    ensures x.name in StepNames(y)
    decreases y
  {
    if x == y {
      assert y.name in OwnNames(y);
    } else if y.parallel.Block? && Within(x, y.parallel.steps) {
      InsideNamed(y.parallel.steps, x);
      assert x.name in OwnNames(y);
    } else if y.onSuccess.Some? && WithinStep(x, y.onSuccess.value) {
      InsideStepNamed(y.onSuccess.value, x);
      assert x.name in HookNames(y.onSuccess);
    } else if y.onFailure.Some? && WithinStep(x, y.onFailure.value) {
      InsideStepNamed(y.onFailure.value, x);
      assert x.name in HookNames(y.onFailure);
    } else {
      InsideStepNamed(y.ensure.value, x);
      assert x.name in HookNames(y.ensure);
    }
  }

  lemma {:induction false} StepNamesCounted(y: YamlStep)
    ensures |StepNames(y)| == CountStep(y)
    decreases y
  {
    if y.parallel.Block? { NamesCounted(y.parallel.steps); }
    if y.onSuccess.Some? { StepNamesCounted(y.onSuccess.value); }
    if y.onFailure.Some? { StepNamesCounted(y.onFailure.value); }
    if y.ensure.Some? { StepNamesCounted(y.ensure.value); }
  }

  lemma {:induction false} NamesCounted(ys: seq<YamlStep>)
    ensures |AllNames(ys)| == CountSteps(ys)
    decreases ys
  {
    if ys != [] {
      StepNamesCounted(ys[0]);
      NamesCounted(ys[1..]);
    }
  }

  /** The names that validation compares are those of all steps at all depths, one for each. */
  lemma {:induction false} NamesExactly(ys: seq<YamlStep>, n: string)
    ensures n in AllNames(ys) <==> exists x :: Within(x, ys) && x.name == n
    ensures |AllNames(ys)| == CountSteps(ys)
  {
    NamesCounted(ys);
    if n in AllNames(ys) { var x := NameInside(ys, n); }
    if x :| Within(x, ys) && x.name == n { InsideNamed(ys, x); }
  }

  // ----- validated names give unambiguous factories -----

  lemma {:induction false} FactoryNamesAmongAll(ys: seq<YamlStep>)
    ensures multiset(FactoryNames(ys)) <= multiset(AllNames(ys))
    decreases ys, 0
  {
    if ys != [] {
      StepFactoryNamesAmongAll(ys[0]);
      FactoryNamesAmongAll(ys[1..]);
    }
  }

  lemma {:induction false} HookNameAmongAll(h: Option<YamlStep>)
    ensures multiset(HookName(h)) <= multiset(HookNames(h))
  {
    if h.Some? {
      var y := h.value;
      assert HookNames(h) == StepNames(y);
      assert OwnNames(y)[0] == y.name;
      assert StepNames(y)[0] == y.name;
    }
  }

  lemma {:induction false} StepFactoryNamesAmongAll(y: YamlStep)
    ensures multiset(StepFactoryNames(y)) <= multiset(StepNames(y))
    decreases y, 1
  {
    if y.parallel.Block? {
      FactoryNamesAmongAll(y.parallel.steps);
    } else {
      HookNameAmongAll(y.onFailure);
      HookNameAmongAll(y.onSuccess);
      HookNameAmongAll(y.ensure);
    }
  }

  lemma {:induction false} CountsToPositions(names: seq<string>)
    ensures NoDup(names) <==> forall x :: multiset(names)[x] <= 1
  {
    if names != [] {
      var rest := names[1..];
      CountsToPositions(rest);
      assert names == [names[0]] + rest;
      assert multiset(names) == multiset{names[0]} + multiset(rest);
      if NoDup(names) {
        assert forall i, j :: 0 <= i < j < |rest| ==> rest[i] != rest[j] by {
          assert forall i :: 0 <= i < |rest| ==> rest[i] == names[i + 1];
        }
        assert names[0] !in rest;
      }
      if forall x :: multiset(names)[x] <= 1 {
        assert forall x :: multiset(rest)[x] <= multiset(names)[x];
        assert multiset(names)[names[0]] <= 1;
        assert names[0] !in rest;
      }
    }
  }

  /** For a spec that passes validation the factory keys are pairwise distinct. */
  lemma {:induction false} ValidatedFactoriesDistinct(t: Translation, ex: Executors, ys: seq<YamlStep>)
    requires Standard(t, ex) && BlockFailure(t, ys).None?
    requires NoDup(AllNames(ys))
    ensures NoDup(Factories(t, ys))
  {
    FactoryNamesAmongAll(ys);
    CountsToPositions(AllNames(ys));
    CountsToPositions(FactoryNames(ys));
    FactoryKeys(t, ex, ys);
    DistinctKeys(Factories(t, ys), FactoryNames(ys));
  }

  // ----- references between workflows -----

  function OwnRef(y: YamlStep): set<string> {
    if y.stepType == Some("workflow") && y.config.Some? && y.config.value.childWorkflow.Some?
    then {y.config.value.childWorkflow.value} else {}
  }

  /** The ids named by `type: workflow` steps anywhere in a list of steps. */
  function Refs(ys: seq<YamlStep>): set<string>
    decreases ys
  {
    if ys == [] then {} else StepRefs(ys[0]) + Refs(ys[1..])
  }

  function StepRefs(y: YamlStep): set<string>
    decreases y
  {
    OwnRef(y) + (if y.parallel.Block? then Refs(y.parallel.steps) else {})
    + HookRefs(y.onSuccess) + HookRefs(y.onFailure) + HookRefs(y.ensure)
  }

  function HookRefs(h: Option<YamlStep>): set<string>
    decreases h
  {
    if h.Some? then StepRefs(h.value) else {}
  }

  lemma {:induction false} SplitRefs(ys: seq<YamlStep>, i: nat)
    requires i < |ys|
    ensures Refs(ys[..i + 1]) == Refs(ys[..i]) + StepRefs(ys[i])
    decreases i
  {
    if i == 0 {
      assert ys[..1] == [ys[0]] && ys[..0] == [];
      assert Refs([ys[0]]) == StepRefs(ys[0]) + Refs([]);
    } else {
      assert ys[..i + 1][1..] == ys[1..][..i] && ys[..i][1..] == ys[1..][..i - 1];
      SplitRefs(ys[1..], i - 1);
    }
  }

  /** The collecting loop adds exactly the referenced ids to the set. */
  method CollectWorkflowRefs(steps: seq<YamlStep>, refs0: set<string>) returns (refs: set<string>)
    ensures refs == refs0 + Refs(steps)
    decreases steps
  {
    refs := refs0;
    for i := 0 to |steps|
      invariant refs == refs0 + Refs(steps[..i])
    {
      SplitRefs(steps, i);
      refs := CollectFromStep(steps[i], refs);
    }
    assert steps[..|steps|] == steps;
  }

  method CollectFromStep(step: YamlStep, refs0: set<string>) returns (refs: set<string>)
    ensures refs == refs0 + StepRefs(step)
    decreases step
  {
    refs := refs0;
    if step.stepType == Some("workflow") && step.config.Some? && step.config.value.childWorkflow.Some? {
      refs := refs + {step.config.value.childWorkflow.value};
    }
    if step.parallel.Block? {
      refs := CollectWorkflowRefs(step.parallel.steps, refs);
    }
    if step.onSuccess.Some? {
      refs := CollectFromStep(step.onSuccess.value, refs);
    }
    if step.onFailure.Some? {
      refs := CollectFromStep(step.onFailure.value, refs);
    }
    if step.ensure.Some? {
      refs := CollectFromStep(step.ensure.value, refs);
    }
  }

  /** A `type: workflow` step that names this workflow. */
  ghost predicate RefersTo(x: YamlStep, id: string) {
    x.stepType == Some("workflow") && x.config.Some? && x.config.value.childWorkflow == Some(id)
  }

  lemma {:induction false} RefInside(ys: seq<YamlStep>, id: string) returns (x: YamlStep)
    requires id in Refs(ys)
    ensures Within(x, ys) && RefersTo(x, id)
    decreases ys
  {
    if id in StepRefs(ys[0]) { x := StepRefInside(ys[0], id); } else { x := RefInside(ys[1..], id); }
  }

  lemma {:induction false} StepRefInside(y: YamlStep, id: string) returns (x: YamlStep)
    requires id in StepRefs(y)
    ensures WithinStep(x, y) && RefersTo(x, id)
    decreases y
  {
    if id in OwnRef(y) {
      x := y;
    } else if y.parallel.Block? && id in Refs(y.parallel.steps) {
      x := RefInside(y.parallel.steps, id);
    } else if y.onSuccess.Some? && id in StepRefs(y.onSuccess.value) {
      x := StepRefInside(y.onSuccess.value, id);
    } else if y.onFailure.Some? && id in StepRefs(y.onFailure.value) {
      x := StepRefInside(y.onFailure.value, id);
    } else {
      assert id in HookRefs(y.ensure);
      x := StepRefInside(y.ensure.value, id);
    }
  }

  lemma {:induction false} InsideRefers(ys: seq<YamlStep>, x: YamlStep, id: string)
    requires Within(x, ys) && RefersTo(x, id)
    ensures id in Refs(ys)
    decreases ys
  {
    if WithinStep(x, ys[0]) { InsideStepRefers(ys[0], x, id); } else { InsideRefers(ys[1..], x, id); }
  }

  lemma {:induction false} InsideStepRefers(y: YamlStep, x: YamlStep, id: string)
    requires WithinStep(x, y) && RefersTo(x, id)
    ensures id in StepRefs(y)
    decreases y
  {
    if x == y {
      assert id in OwnRef(y);
    } else if y.parallel.Block? && Within(x, y.parallel.steps) {
      InsideRefers(y.parallel.steps, x, id);
    } else if y.onSuccess.Some? && WithinStep(x, y.onSuccess.value) {
      InsideStepRefers(y.onSuccess.value, x, id);
      assert id in HookRefs(y.onSuccess);
    } else if y.onFailure.Some? && WithinStep(x, y.onFailure.value) {
      InsideStepRefers(y.onFailure.value, x, id);
      assert id in HookRefs(y.onFailure);
    } else {
      InsideStepRefers(y.ensure.value, x, id);
      assert id in HookRefs(y.ensure);
    }
  }

  /** The collected ids are exactly those that some `type: workflow` step, at any depth, names. */
  lemma {:induction false} RefsExactly(ys: seq<YamlStep>, id: string)
    ensures id in Refs(ys) <==> exists x :: Within(x, ys) && RefersTo(x, id)
  {
    if id in Refs(ys) { var x := RefInside(ys, id); }
    if x :| Within(x, ys) && RefersTo(x, id) { InsideRefers(ys, x, id); }
  }

  // ----- every sub-workflow a compiled step starts was collected -----

  lemma {:induction false} HookStartsCollected(
      t: Translation, ex: Executors, id: nat, h: Option<YamlStep>, next: Option<nat>, s: WorkflowStep, child: string)
    requires Standard(t, ex) && s in HookAt(t, id, h, next) && Starts(s, child)
    ensures child in HookRefs(h)
  {
    BuiltChild(t, ex, h.value, child);
  }

  lemma {:induction false} RegularStartsCollected(
      t: Translation, ex: Executors, y: YamlStep, b: nat, next: Option<nat>, s: WorkflowStep, child: string)
    requires Standard(t, ex) && !y.parallel.Block? && Starts(s, child)
    requires s in FailureHook(t, y, b) || s in SuccessHook(t, y, b, next) || s in EnsureHook(t, y, b, next)
             || s == MainStep(t, y, b, next)
    ensures child in OwnRef(y) + HookRefs(y.onSuccess) + HookRefs(y.onFailure) + HookRefs(y.ensure)
  {
    if s in FailureHook(t, y, b) {
      HookStartsCollected(t, ex, b + 1, y.onFailure, None, s, child);
    } else if s in SuccessHook(t, y, b, next) {
      HookStartsCollected(t, ex, SuccessId(y, b), y.onSuccess, next, s, child);
    } else if s in EnsureHook(t, y, b, next) {
      HookStartsCollected(t, ex, EnsureId(y, b), y.ensure, if y.onSuccess.Some? then None else next, s, child);
    } else {
      BuiltChild(t, ex, y, child);
    }
  }

  lemma {:induction false} StepStartsCollected(
      t: Translation, ex: Executors, y: YamlStep, b: nat, next: Option<nat>, s: WorkflowStep, child: string)
    requires Standard(t, ex) && s in StepLayout(t, y, b, next) && Starts(s, child)
    ensures child in StepRefs(y)
    decreases y, 1
  {
    if y.parallel.Block? {
      var inner := y.parallel.steps;
      assert s in BlockLayout(t, inner, b + 1, |inner|);
      StartsCollected(t, ex, inner, b + 1, |inner|, s, child);
    } else {
      RegularStartsCollected(t, ex, y, b, next, s, child);
    }
  }

  lemma {:induction false} StartsCollected(
      t: Translation, ex: Executors, ys: seq<YamlStep>, b: nat, w: nat, s: WorkflowStep, child: string)
    requires Standard(t, ex) && s in BlockLayout(t, ys, b, w) && Starts(s, child)
    ensures child in Refs(ys)
    decreases ys, 0
  {
    var after := b + StepSize(ys[0]);
    var next := if w > 0 && |ys| > 1 then Some(after) else None;
    if s in StepLayout(t, ys[0], b, next) {
      StepStartsCollected(t, ex, ys[0], b, next, s, child);
    } else {
      StartsCollected(t, ex, ys[1..], after, if w > 0 then w - 1 else 0, s, child);
    }
  }

  // ----- a batch of workflows -----

  function SpecIds(specs: seq<WorkflowSpec>): seq<string> {
    if specs == [] then [] else SpecIds(specs[..|specs| - 1]) + [specs[|specs| - 1].id]
  }

  /** The dependency graph of a batch; a later spec with the same id would replace an earlier one. */
  function Deps(specs: seq<WorkflowSpec>): CycleDetection.Graph {
    if specs == [] then map[]
    else Deps(specs[..|specs| - 1])[specs[|specs| - 1].id := Refs(specs[|specs| - 1].steps)]
  }

  /** A workflow that passes validation on its own. */
  ghost predicate SpecOk(checks: Checks, spec: WorkflowSpec) {
    && spec.steps != []
    && NoDup(AllNames(spec.steps)) && AllShaped(checks, spec.steps)
    && (spec.errorBehavior.Some? ==> spec.errorBehavior.value in ERROR_BEHAVIORS)
    && checks.conditionsOk(spec)
  }

  /** The workflow's own error behaviour passes exactly when it can be compiled. */
  lemma {:induction false} SpecOkExactly(checks: Checks, t: Translation, spec: WorkflowSpec)
    requires StandardErrors(t)
    ensures SpecOk(checks, spec) <==>
              && spec.steps != [] && NoDup(AllNames(spec.steps)) && AllShaped(checks, spec.steps)
              && checks.conditionsOk(spec)
              && (spec.errorBehavior.Some? ==> t.mapError(spec.errorBehavior.value).Ok?)
  {
  }

  method Validate(checks: Checks, spec: WorkflowSpec) returns (r: Result<(), ValidationError>)
    ensures r.Ok? <==> SpecOk(checks, spec)
  {
    if spec.steps == [] {
      return Err("Workflow must have at least one step");
    }
    ShapesExactly(checks, spec.steps);
    var names := ValidateSteps(checks, spec.steps, {});
    if names.Err? {
      return Err(names.error);
    }
    if spec.errorBehavior.Some? && spec.errorBehavior.value !in ERROR_BEHAVIORS {
      return Err("Invalid error behavior type");
    }
    if !checks.conditionsOk(spec) {
      return Err("conditions");
    }
    return Ok(());
  }

  lemma {:induction false} SpecIdsSnoc(specs: seq<WorkflowSpec>, i: nat)
    requires i < |specs|
    ensures SpecIds(specs[..i + 1]) == SpecIds(specs[..i]) + [specs[i].id]
    ensures Deps(specs[..i + 1]) == Deps(specs[..i])[specs[i].id := Refs(specs[i].steps)]
  {
    assert specs[..i + 1][..i] == specs[..i];
  }

  // ----- references among the workflows of a batch -----

  /** Some workflow of the batch with id `a` has a step, at any depth, that names workflow `c` of the batch. */
  ghost predicate Refers(specs: seq<WorkflowSpec>, a: string, c: string) {
    && (exists j :: 0 <= j < |specs| && specs[j].id == c)
    && exists i, x :: 0 <= i < |specs| && specs[i].id == a && Within(x, specs[i].steps) && RefersTo(x, c)
  }

  /** Workflows of the batch that refer to one another in a circle. */
  ghost predicate IsCircle(specs: seq<WorkflowSpec>, c: seq<string>) {
    && c != [] && Refers(specs, c[|c| - 1], c[0])
    && forall i :: 0 <= i < |c| - 1 ==> Refers(specs, c[i], c[i + 1])
  }

  ghost predicate Circular(specs: seq<WorkflowSpec>) { exists c :: IsCircle(specs, c) }

  ghost predicate DistinctSpecIds(specs: seq<WorkflowSpec>) {
    forall i, j :: 0 <= i < j < |specs| ==> specs[i].id != specs[j].id
  }

  lemma {:induction false} DistinctMeans(specs: seq<WorkflowSpec>)
    ensures NoDup(SpecIds(specs)) <==> DistinctSpecIds(specs)
  {
    SpecIdsAt(specs);
  }

  lemma {:induction false} EdgeMeansRefers(specs: seq<WorkflowSpec>, a: string, c: string)
    requires NoDup(SpecIds(specs))
    ensures CycleDetection.Edge(Elems(SpecIds(specs)), Deps(specs), a, c) <==> Refers(specs, a, c)
  {
    var ids := SpecIds(specs);
    SpecIdsAt(specs);
    if CycleDetection.Edge(Elems(ids), Deps(specs), a, c) {
      var i :| 0 <= i < |ids| && ids[i] == a;
      var j :| 0 <= j < |ids| && ids[j] == c;
      DepsAt(specs, i);
      var x := RefInside(specs[i].steps, c);
      assert specs[j].id == c && specs[i].id == a;
    }
    if Refers(specs, a, c) {
      var j :| 0 <= j < |specs| && specs[j].id == c;
      var i, x :| 0 <= i < |specs| && specs[i].id == a && Within(x, specs[i].steps) && RefersTo(x, c);
      DepsAt(specs, i);
      InsideRefers(specs[i].steps, x, c);
      assert ids[i] == a && ids[j] == c;
    }
  }

  lemma {:induction false} CycleMeansCircular(specs: seq<WorkflowSpec>)
    requires NoDup(SpecIds(specs))
    ensures CycleDetection.HasCycle(Elems(SpecIds(specs)), Deps(specs)) <==> Circular(specs)
  {
    var known, deps := Elems(SpecIds(specs)), Deps(specs);
    forall c ensures CycleDetection.IsCycle(known, deps, c) <==> IsCircle(specs, c) {
      if c != [] {
        EdgeMeansRefers(specs, c[|c| - 1], c[0]);
        forall i | 0 <= i < |c| - 1
          ensures CycleDetection.Edge(known, deps, c[i], c[i + 1]) <==> Refers(specs, c[i], c[i + 1])
        {
          EdgeMeansRefers(specs, c[i], c[i + 1]);
        }
      }
    }
  }

  /** A batch is accepted exactly when each workflow passes on its own, the ids are distinct, and no workflows of the
      batch refer to one another in a circle. */
  method ValidateMulti(checks: Checks, specs: seq<WorkflowSpec>)
    returns (r: Result<(), ValidationError>)
    ensures r.Ok? <==>
      && (forall i :: 0 <= i < |specs| ==> SpecOk(checks, specs[i]))
      && DistinctSpecIds(specs)
      && !Circular(specs)
  {
    DistinctMeans(specs);
    if NoDup(SpecIds(specs)) { CycleMeansCircular(specs); }
    for i := 0 to |specs|
      invariant forall j :: 0 <= j < i ==> SpecOk(checks, specs[j])
    {
      var one := Validate(checks, specs[i]);
      if one.Err? {
        return Err(one.error);
      }
    }
    var distinct := DistinctIds(specs);
    if !distinct {
      return Err("Duplicate workflow ID");
    }
    var known, deps := BuildGraph(specs);
    var cycles := CycleDetection.DetectCycles(known, deps);
    if cycles.Err? {
      return Err("Circular workflow reference detected");
    }
    return Ok(());
  }

  method DistinctIds(specs: seq<WorkflowSpec>) returns (ok: bool)
    ensures ok <==> NoDup(SpecIds(specs))
  {
    var seen: set<string> := {};
    for i := 0 to |specs|
      invariant NoDup(SpecIds(specs[..i])) && seen == Elems(SpecIds(specs[..i]))
    {
      SpecIdsSnoc(specs, i);
      if specs[i].id in seen {
        RepeatedId(specs, i);
        return false;
      }
      seen := seen + {specs[i].id};
    }
    assert specs[..|specs|] == specs;
    return true;
  }

  lemma {:induction false} SpecIdsAt(specs: seq<WorkflowSpec>)
    ensures |SpecIds(specs)| == |specs|
    ensures forall i :: 0 <= i < |specs| ==> SpecIds(specs)[i] == specs[i].id
  {
    if specs != [] { SpecIdsAt(specs[..|specs| - 1]); }
  }

  lemma {:induction false} RepeatedId(specs: seq<WorkflowSpec>, i: nat)
    requires i < |specs| && specs[i].id in SpecIds(specs[..i])
    ensures !NoDup(SpecIds(specs))
  {
    SpecIdsAt(specs);
    SpecIdsAt(specs[..i]);
    var j :| 0 <= j < i && SpecIds(specs[..i])[j] == specs[i].id;
    assert SpecIds(specs)[j] == SpecIds(specs)[i];
  }

  method BuildGraph(specs: seq<WorkflowSpec>) returns (known: set<string>, deps: CycleDetection.Graph)
    ensures known == Elems(SpecIds(specs)) && deps == Deps(specs)
  {
    known, deps := {}, map[];
    for i := 0 to |specs|
      invariant known == Elems(SpecIds(specs[..i])) && deps == Deps(specs[..i])
    {
      SpecIdsSnoc(specs, i);
      var refs := CollectWorkflowRefs(specs[i].steps, {});
      assert refs == Refs(specs[i].steps);
      known := known + {specs[i].id};
      deps := deps[specs[i].id := refs];
    }
    assert specs[..|specs|] == specs;
  }

  // ----- bounded nesting -----

  /** Some compiled step of workflow `a` of the batch starts workflow `c` of the batch. */
  ghost predicate Invokes(t: Translation, specs: seq<WorkflowSpec>, a: string, c: string) {
    c in SpecIds(specs) &&
    exists i, s :: 0 <= i < |specs| && specs[i].id == a && s in Compiled(t, specs[i].steps, 0) && Starts(s, c)
  }

  lemma {:induction false} DepsAt(specs: seq<WorkflowSpec>, i: nat)
    requires i < |specs| && NoDup(SpecIds(specs))
    ensures specs[i].id in Deps(specs) && Deps(specs)[specs[i].id] == Refs(specs[i].steps)
  {
    SpecIdsAt(specs);
    var init := specs[..|specs| - 1];
    if i < |init| {
      SpecIdsAt(init);
      assert NoDup(SpecIds(init)) by {
        assert forall k :: 0 <= k < |init| ==> SpecIds(init)[k] == SpecIds(specs)[k];
      }
      DepsAt(init, i);
      assert SpecIds(specs)[i] != SpecIds(specs)[|specs| - 1];
    }
  }

  /** Every invocation between workflows of a batch is an edge of the graph that was checked. */
  lemma {:induction false} InvocationIsEdge(
      t: Translation, ex: Executors, specs: seq<WorkflowSpec>, a: string, c: string)
    requires Standard(t, ex) && NoDup(SpecIds(specs)) && Invokes(t, specs, a, c)
    ensures CycleDetection.Edge(Elems(SpecIds(specs)), Deps(specs), a, c)
  {
    var i, s :| 0 <= i < |specs| && specs[i].id == a && s in Compiled(t, specs[i].steps, 0) && Starts(s, c);
    StartsCollected(t, ex, specs[i].steps, 0, |specs[i].steps|, s, c);
    DepsAt(specs, i);
    SpecIdsAt(specs);
    assert SpecIds(specs)[i] == a;
  }

  /** In an accepted batch, a chain of sub-workflow invocations is never longer than the batch: invocation is
      well-founded, including what hooks and nested parallel blocks start. */
  lemma {:induction false} NestingIsBounded(
      t: Translation, ex: Executors, specs: seq<WorkflowSpec>, chain: seq<string>)
    requires Standard(t, ex) && NoDup(SpecIds(specs))
    requires !CycleDetection.HasCycle(Elems(SpecIds(specs)), Deps(specs))
    requires chain != [] && chain[0] in SpecIds(specs)
    requires forall i :: 0 <= i < |chain| - 1 ==> Invokes(t, specs, chain[i], chain[i + 1])
    ensures |chain| <= |specs|
  {
    var known, deps := Elems(SpecIds(specs)), Deps(specs);
    forall i | 0 <= i < |chain| - 1 ensures CycleDetection.Edge(known, deps, chain[i], chain[i + 1]) {
      assert Invokes(t, specs, chain[i], chain[i + 1]);
      InvocationIsEdge(t, ex, specs, chain[i], chain[i + 1]);
    }
    CycleDetection.ChainsAreShort(known, deps, chain);
    NoDupSize(SpecIds(specs));
    SpecIdsAt(specs);
  }
}
