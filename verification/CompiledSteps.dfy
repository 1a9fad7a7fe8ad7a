/** What a compiled step carries (wfe-yaml/src/compiler.rs:82-252), told by the fields of its YAML step and by what
    building, error behaviours and conditions translate to. */
module CompiledSteps {
  import opened Prelude
  import opened Yaml
  import opened Layout
  import opened CompiledGraph

  // ----- when a block compiles -----

  ghost predicate HookCompiles(t: Translation, h: Option<YamlStep>) { h.Some? ==> t.build(h.value).Ok? }

  /** Everything that is translated for this step translates. */
  ghost predicate Compiles(t: Translation, y: YamlStep) {
    && (y.errorBehavior.Some? ==> t.mapError(y.errorBehavior.value).Ok?)
    && (y.when.Some? ==> t.mapCondition(y.when.value).Ok?)
    && (!y.parallel.Block? ==>
          && t.build(y).Ok?
          && HookCompiles(t, y.onFailure) && HookCompiles(t, y.onSuccess) && HookCompiles(t, y.ensure))
  }

  ghost predicate HookFails(t: Translation, h: Option<YamlStep>, e: CompileError) {
    h.Some? && t.build(h.value) == Err(e)
  }

  /** Something that is translated for this step fails with this error. */
  ghost predicate FailsWith(t: Translation, y: YamlStep, e: CompileError) {
    || (y.errorBehavior.Some? && t.mapError(y.errorBehavior.value) == Err(e))
    || (y.when.Some? && t.mapCondition(y.when.value) == Err(e))
    || (!y.parallel.Block? &&
          (|| t.build(y) == Err(e)
           || HookFails(t, y.onFailure, e) || HookFails(t, y.onSuccess, e) || HookFails(t, y.ensure, e)))
  }

  /** Some step of the block, or of a block inside it, fails with this error. */
  ghost predicate FailsInside(t: Translation, ys: seq<YamlStep>, b: nat, e: CompileError) {
    exists inner: seq<YamlStep>, c: nat, i: nat :: FailsAt(t, ys, b, inner, c, i, e)
  }

  ghost predicate FailsAt(
      t: Translation, ys: seq<YamlStep>, b: nat, inner: seq<YamlStep>, c: nat, i: nat, e: CompileError)
  {
    IsBlock(ys, b, inner, c) && i < |inner| && FailsWith(t, inner[i], e)
  }

  lemma {:induction false} FailureIsReal(t: Translation, ys: seq<YamlStep>, b: nat)
    requires BlockFailure(t, ys).Some?
    ensures FailsInside(t, ys, b, BlockFailure(t, ys).value)
    decreases ys
  {
    var y, e, after := ys[0], BlockFailure(t, ys).value, b + StepSize(ys[0]);
    if FailsWith(t, y, e) {
      assert FailsAt(t, ys, b, ys, b, 0, e);
    } else if StepFailure(t, y).Some? {
      var steps := y.parallel.steps;
      FailureIsReal(t, steps, b + 1);
      var inner: seq<YamlStep>, c: nat, i: nat :| FailsAt(t, steps, b + 1, inner, c, i, e);
      assert FailsAt(t, ys, b, inner, c, i, e);
    } else {
      FailureIsReal(t, ys[1..], after);
      var inner: seq<YamlStep>, c: nat, i: nat :| FailsAt(t, ys[1..], after, inner, c, i, e);
      if IsInnerBlock(ys[1..], after, inner, c) {
        assert FailsAt(t, ys, b, inner, c, i, e);
      } else {
        assert ys[i + 1] == inner[i];
        assert FailsAt(t, ys, b, ys, b, i + 1, e);
      }
    }
  }

  lemma {:induction false} StepCompiles(t: Translation, ys: seq<YamlStep>, i: nat)
    requires BlockFailure(t, ys).None? && i < |ys|
    ensures StepFailure(t, ys[i]).None?
    decreases |ys|
  {
    if i > 0 { StepCompiles(t, ys[1..], i - 1); }
  }

  lemma {:induction false} InsideCompiles(
      t: Translation, ys: seq<YamlStep>, b: nat, inner: seq<YamlStep>, c: nat, i: nat)
    requires BlockFailure(t, ys).None? && IsBlock(ys, b, inner, c) && i < |inner|
    ensures StepFailure(t, inner[i]).None? && Compiles(t, inner[i])
    decreases ys
  {
    if !IsInnerBlock(ys, b, inner, c) {
      StepCompiles(t, ys, i);
    } else if ys[0].parallel.Block? && IsBlock(ys[0].parallel.steps, b + 1, inner, c) {
      InsideCompiles(t, ys[0].parallel.steps, b + 1, inner, c, i);
    } else {
      InsideCompiles(t, ys[1..], b + StepSize(ys[0]), inner, c, i);
    }
  }

  ghost predicate ErrorOk(t: Translation, y: YamlStep) {
    y.errorBehavior.Some? ==> t.mapError(y.errorBehavior.value).Ok?
  }

  ghost predicate WhenOk(t: Translation, y: YamlStep) { y.when.Some? ==> t.mapCondition(y.when.value).Ok? }

  ghost predicate ErrorFails(t: Translation, y: YamlStep, e: CompileError) {
    y.errorBehavior.Some? && t.mapError(y.errorBehavior.value) == Err(e)
  }

  ghost predicate WhenFails(t: Translation, y: YamlStep, e: CompileError) {
    y.when.Some? && t.mapCondition(y.when.value) == Err(e)
  }

  /** Of a step without a block, the failure reported is the first of: its own build, its error behaviour, its
      condition, and the hooks for failure, for success and for ensure. */
  lemma {:induction false} StepFailureOrder(t: Translation, y: YamlStep, e: CompileError)
    requires !y.parallel.Block?
    ensures t.build(y) == Err(e) ==> StepFailure(t, y) == Some(e)
    ensures t.build(y).Ok? && ErrorFails(t, y, e) ==> StepFailure(t, y) == Some(e)
    ensures t.build(y).Ok? && ErrorOk(t, y) && WhenFails(t, y, e) ==> StepFailure(t, y) == Some(e)
    ensures t.build(y).Ok? && ErrorOk(t, y) && WhenOk(t, y) ==>
              && (HookFails(t, y.onFailure, e) ==> StepFailure(t, y) == Some(e))
              && (HookCompiles(t, y.onFailure) && HookFails(t, y.onSuccess, e) ==> StepFailure(t, y) == Some(e))
              && (HookCompiles(t, y.onFailure) && HookCompiles(t, y.onSuccess) && HookFails(t, y.ensure, e) ==>
                    StepFailure(t, y) == Some(e))
  {
  }

  /** Of a step with a block: its error behaviour, then the block, then its condition. Of several steps: the first that
      fails. */
  lemma {:induction false} BlockFailureOrder(t: Translation, y: YamlStep, rest: seq<YamlStep>, e: CompileError)
    ensures y.parallel.Block? && ErrorFails(t, y, e) ==> StepFailure(t, y) == Some(e)
    ensures y.parallel.Block? && ErrorOk(t, y) && BlockFailure(t, y.parallel.steps) == Some(e) ==>
              StepFailure(t, y) == Some(e)
    ensures BlockFailure(t, [y] + rest)
         == if StepFailure(t, y).Some? then StepFailure(t, y) else BlockFailure(t, rest)
  {
    assert ([y] + rest)[1..] == rest;
  }

  // ----- what a compiled step carries -----

  /** The condition: that of the YAML step, translated, or none. */
  ghost predicate HasCondition(t: Translation, s: WorkflowStep, y: YamlStep) {
    if y.when.None? then s.when.None?
    else t.mapCondition(y.when.value).Ok? && s.when == Some(t.mapCondition(y.when.value).value)
  }

  /** The error behaviour: compensation for a step with a compiled failure hook, else the YAML step's, translated, or
      none. */
  ghost predicate HasErrorBehavior(t: Translation, s: WorkflowStep, y: YamlStep) {
    if !y.parallel.Block? && y.onFailure.Some? then s.errorBehavior == Some(Compensate)
    else if y.errorBehavior.None? then s.errorBehavior.None?
    else t.mapError(y.errorBehavior.value).Ok? && s.errorBehavior == Some(t.mapError(y.errorBehavior.value).value)
  }

  ghost predicate Untagged(s: WorkflowStep) { forall o :: o in s.outcomes ==> o.tag.None? }

  /** The edge to a hook says which hook it is; other edges say nothing. */
  ghost predicate HasTags(s: WorkflowStep, y: YamlStep) {
    if !y.parallel.Block? && y.onSuccess.Some? then |s.outcomes| == 1 && s.outcomes[0].tag == Some("success")
    else if !y.parallel.Block? && y.ensure.Some? then |s.outcomes| == 1 && s.outcomes[0].tag == Some("ensure")
    else Untagged(s)
  }

  ghost predicate IsBuilt(t: Translation, s: WorkflowStep, y: YamlStep) {
    t.build(y).Ok? && s.name == y.name && s.stepType == t.build(y).value.0 && s.config == Some(t.build(y).value.1)
  }

  /** A hook's compiled step: built from the hook, and nothing else. */
  ghost predicate HasHookStep(t: Translation, defn: seq<WorkflowStep>, h: Option<YamlStep>, id: nat) {
    h.Some? ==> exists s :: s in defn && s.id == id && IsHookStep(t, s, h.value)
  }

  ghost predicate IsHookStep(t: Translation, s: WorkflowStep, h: YamlStep) {
    IsBuilt(t, s, h) && Untagged(s) && s.children == [] && s.compensation.None? && s.when.None? && s.errorBehavior.None?
  }

  ghost predicate Carries(t: Translation, s: WorkflowStep, y: YamlStep) {
    && HasCondition(t, s, y) && HasErrorBehavior(t, s, y) && HasTags(s, y) && s.name == y.name
    && (!y.parallel.Block? ==> IsBuilt(t, s, y))
  }

  /** The step at `id` carries what `y` says, and the hooks of a step without a block follow it, the failure hook first
      and the ensure hook last. */
  ghost predicate Translates(t: Translation, defn: seq<WorkflowStep>, y: YamlStep, id: nat) {
    && (exists s :: s in defn && s.id == id && Carries(t, s, y))
    && (!y.parallel.Block? ==>
          var afterFailure := if y.onFailure.Some? then id + 2 else id + 1;
          && HasHookStep(t, defn, y.onFailure, id + 1)
          && HasHookStep(t, defn, y.onSuccess, afterFailure)
          && HasHookStep(t, defn, y.ensure, if y.onSuccess.Some? then afterFailure + 1 else afterFailure))
  }

  lemma {:induction false} HookTranslates(
      t: Translation, defn: seq<WorkflowStep>, h: Option<YamlStep>, id: nat, next: Option<nat>)
    requires Contains(defn, HookAt(t, id, h, next)) && HookCompiles(t, h)
    ensures HasHookStep(t, defn, h, id)
  {
    if h.Some? {
      var s := Hook(t, id, h.value, next);
      assert s in HookAt(t, id, h, next) && IsHookStep(t, s, h.value);
    }
  }

  lemma {:induction false} StepTranslates(
      t: Translation, defn: seq<WorkflowStep>, y: YamlStep, b: nat, next: Option<nat>)
    requires Contains(defn, StepLayout(t, y, b, next)) && Compiles(t, y)
    ensures Translates(t, defn, y, b)
  {
    if y.parallel.Block? {
      var s := Container(t, y, b, next);
      assert s in StepLayout(t, y, b, next) && Carries(t, s, y);
    } else {
      var s := MainStep(t, y, b, next);
      assert s in StepLayout(t, y, b, next) && Carries(t, s, y);
      HookTranslates(t, defn, y.onFailure, b + 1, None);
      HookTranslates(t, defn, y.onSuccess, SuccessId(y, b), next);
      HookTranslates(t, defn, y.ensure, EnsureId(y, b), if y.onSuccess.Some? then None else next);
    }
  }

  lemma {:induction false} BlockTranslates(t: Translation, defn: seq<WorkflowStep>, ys: seq<YamlStep>, b: nat, i: nat)
    requires Contains(defn, Compiled(t, ys, b)) && i < |ys| && Compiles(t, ys[i])
    ensures Translates(t, defn, ys[i], MainIds(ys, b)[i])
    decreases |ys|
  {
    var after := b + StepSize(ys[0]);
    var next := if |ys| > 1 then Some(after) else None;
    assert Compiled(t, ys, b) == StepLayout(t, ys[0], b, next) + Compiled(t, ys[1..], after);
    if i == 0 {
      StepTranslates(t, defn, ys[0], b, next);
    } else {
      BlockTranslates(t, defn, ys[1..], after, i - 1);
    }
  }

  /** A block that compiles, at every nesting level: each step has its own condition, error behaviour, key and
      configuration, its edges carry the right tags, and its hooks are built from its hooks. */
  lemma {:induction false} EveryStepTranslated(
      t: Translation, ys: seq<YamlStep>, inner: seq<YamlStep>, c: nat, i: nat)
    requires BlockFailure(t, ys).None? && IsBlock(ys, 0, inner, c) && i < |inner|
    ensures Translates(t, Compiled(t, ys, 0), inner[i], MainIds(inner, c)[i])
  {
    InsideCompiles(t, ys, 0, inner, c, i);
    if IsInnerBlock(ys, 0, inner, c) { InnerBlockContained(t, ys, 0, |ys|, inner, c); }
    BlockTranslates(t, Compiled(t, ys, 0), inner, c, i);
  }

  /** The step at this place, if there is one, compiles. */
  ghost predicate CompilesAt(t: Translation, ys: seq<YamlStep>, inner: seq<YamlStep>, c: nat, i: nat) {
    IsBlock(ys, 0, inner, c) && i < |inner| ==> Compiles(t, inner[i])
  }

  /** A block compiles if and only if everything translates in every step at every level; the error it fails with is
      one of those that occur. */
  lemma {:induction false} CompilesExactly(t: Translation, ys: seq<YamlStep>)
    ensures BlockFailure(t, ys).None? <==>
              forall inner: seq<YamlStep>, c: nat, i: nat :: CompilesAt(t, ys, inner, c, i)
    ensures BlockFailure(t, ys).Some? ==> FailsInside(t, ys, 0, BlockFailure(t, ys).value)
  {
    if BlockFailure(t, ys).None? {
      forall inner: seq<YamlStep>, c: nat, i: nat ensures CompilesAt(t, ys, inner, c, i) {
        if IsBlock(ys, 0, inner, c) && i < |inner| { InsideCompiles(t, ys, 0, inner, c, i); }
      }
    } else {
      FailureIsReal(t, ys, 0);
      var e := BlockFailure(t, ys).value;
      var inner: seq<YamlStep>, c: nat, i: nat :| FailsAt(t, ys, 0, inner, c, i, e);
      assert !CompilesAt(t, ys, inner, c, i);
    }
  }
}
