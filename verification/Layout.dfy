/** What compilation is meant to produce: every step of a block with its id, its children, its compensation
    and its outcome edge written down directly, without any later rewiring. */
module Layout {
  import opened Prelude
  import opened Yaml

  // ----- sizes and ids -----

  function Count<T>(o: Option<T>): nat { if o.Some? then 1 else 0 }

  function StepSize(y: YamlStep): (n: nat)
    ensures n >= 1
    decreases y
  {
    if y.parallel.Block? then 1 + Size(y.parallel.steps)
    else 1 + Count(y.onFailure) + Count(y.onSuccess) + Count(y.ensure)
  }

  /** How many ids a block takes. */
  function Size(ys: seq<YamlStep>): nat
    decreases ys
  {
    if ys == [] then 0 else StepSize(ys[0]) + Size(ys[1..])
  }

  function SuccessId(y: YamlStep, b: nat): nat { b + 1 + Count(y.onFailure) }

  function EnsureId(y: YamlStep, b: nat): nat { b + 1 + Count(y.onFailure) + Count(y.onSuccess) }

  /** The ids of the main steps of a block that starts at id `b`. */
  function MainIds(ys: seq<YamlStep>, b: nat): (ids: seq<nat>)
    ensures |ids| == |ys|
  {
    if ys == [] then [] else [b] + MainIds(ys[1..], b + StepSize(ys[0]))
  }

  // ----- the emitted steps -----

  function Key(t: Translation, y: YamlStep): string { if t.build(y).Ok? then t.build(y).value.0 else "" }

  function ConfigOf(t: Translation, y: YamlStep): Option<Config> {
    if t.build(y).Ok? then Some(t.build(y).value.1) else None
  }

  function ErrorOf(t: Translation, e: Option<string>): Option<ErrorBehavior> {
    if e.Some? && t.mapError(e.value).Ok? then Some(t.mapError(e.value).value) else None
  }

  function WhenOf(t: Translation, c: Option<string>): Option<string> {
    if c.Some? && t.mapCondition(c.value).Ok? then Some(t.mapCondition(c.value).value) else None
  }

  /** The edge to the step that comes next in the block, if one does. */
  function EdgeTo(next: Option<nat>): seq<StepOutcome> {
    if next.Some? then [StepOutcome(next.value, None)] else []
  }

  function Hook(t: Translation, id: nat, h: YamlStep, next: Option<nat>): WorkflowStep {
    WorkflowStep(id, Key(t, h), h.name, ConfigOf(t, h), None, EdgeTo(next), [], None, None)
  }

  function Container(t: Translation, y: YamlStep, b: nat, next: Option<nat>): WorkflowStep
    requires y.parallel.Block?
  {
    WorkflowStep(b, SEQUENCE_STEP, y.name, None, ErrorOf(t, y.errorBehavior), EdgeTo(next),
                 MainIds(y.parallel.steps, b + 1), None, WhenOf(t, y.when))
  }

  function MainStep(t: Translation, y: YamlStep, b: nat, next: Option<nat>): WorkflowStep {
    WorkflowStep(b, Key(t, y), y.name, ConfigOf(t, y),
                 if y.onFailure.Some? then Some(Compensate) else ErrorOf(t, y.errorBehavior),
                 if y.onSuccess.Some? then [StepOutcome(SuccessId(y, b), Some("success"))]
                 else if y.ensure.Some? then [StepOutcome(EnsureId(y, b), Some("ensure"))]
                 else EdgeTo(next),
                 [], if y.onFailure.Some? then Some(b + 1) else None, WhenOf(t, y.when))
  }

  function HookAt(t: Translation, id: nat, h: Option<YamlStep>, next: Option<nat>): seq<WorkflowStep> {
    if h.Some? then [Hook(t, id, h.value, next)] else []
  }

  function FailureHook(t: Translation, y: YamlStep, b: nat): seq<WorkflowStep> {
    HookAt(t, b + 1, y.onFailure, None)
  }

  function SuccessHook(t: Translation, y: YamlStep, b: nat, next: Option<nat>): seq<WorkflowStep> {
    HookAt(t, SuccessId(y, b), y.onSuccess, next)
  }

  /** An ensure hook continues to the next step only when there is no success hook to do so. */
  function EnsureHook(t: Translation, y: YamlStep, b: nat, next: Option<nat>): seq<WorkflowStep> {
    HookAt(t, EnsureId(y, b), y.ensure, if y.onSuccess.Some? then None else next)
  }

  /** The steps of one YAML step at id `b`, in the order they are pushed: the main step comes last. */
  function StepLayout(t: Translation, y: YamlStep, b: nat, next: Option<nat>): seq<WorkflowStep>
    decreases y
  {
    if y.parallel.Block? then
      BlockLayout(t, y.parallel.steps, b + 1, |y.parallel.steps|) + [Container(t, y, b, next)]
    else
      FailureHook(t, y, b) + SuccessHook(t, y, b, next) + EnsureHook(t, y, b, next) + [MainStep(t, y, b, next)]
  }

  /** The steps of a block at id `b` with its first `wired` connections in place. */
  function BlockLayout(t: Translation, ys: seq<YamlStep>, b: nat, wired: nat): seq<WorkflowStep>
    decreases ys
  {
    if ys == [] then []
    else
      var after := b + StepSize(ys[0]);
      StepLayout(t, ys[0], b, if wired > 0 && |ys| > 1 then Some(after) else None)
      + BlockLayout(t, ys[1..], after, if wired > 0 then wired - 1 else 0)
  }

  /** The compiled block: all connections in place. */
  function Compiled(t: Translation, ys: seq<YamlStep>, b: nat): seq<WorkflowStep> {
    BlockLayout(t, ys, b, |ys|)
  }

  // ----- factories -----

  function FactoryOf(t: Translation, h: Option<YamlStep>): seq<string> {
    if h.Some? then [Key(t, h.value)] else []
  }

  /** The keys under which step factories are registered, in registration order. */
  function Factories(t: Translation, ys: seq<YamlStep>): seq<string>
    decreases ys
  {
    if ys == [] then []
    else StepFactories(t, ys[0]) + Factories(t, ys[1..])
  }

  function StepFactories(t: Translation, y: YamlStep): seq<string>
    decreases y
  {
    if y.parallel.Block? then Factories(t, y.parallel.steps)
    else FactoryOf(t, y.onFailure) + FactoryOf(t, y.onSuccess) + FactoryOf(t, y.ensure) + [Key(t, y)]
  }

  // ----- failures -----

  function Failure<T>(r: Result<T, CompileError>): Option<CompileError> {
    if r.Err? then Some(r.error) else None
  }

  function OrElse(a: Option<CompileError>, b: Option<CompileError>): Option<CompileError> {
    if a.Some? then a else b
  }

  function BuildFailure(t: Translation, h: Option<YamlStep>): Option<CompileError> {
    if h.Some? then Failure(t.build(h.value)) else None
  }

  function ErrorFailure(t: Translation, e: Option<string>): Option<CompileError> {
    if e.Some? then Failure(t.mapError(e.value)) else None
  }

  function WhenFailure(t: Translation, c: Option<string>): Option<CompileError> {
    if c.Some? then Failure(t.mapCondition(c.value)) else None
  }

  /** The first failure met while compiling a step, in the order in which its parts are compiled. */
  function StepFailure(t: Translation, y: YamlStep): Option<CompileError>
    decreases y
  {
    if y.parallel.Block? then
      OrElse(ErrorFailure(t, y.errorBehavior), OrElse(BlockFailure(t, y.parallel.steps), WhenFailure(t, y.when)))
    else
      OrElse(Failure(t.build(y)), OrElse(ErrorFailure(t, y.errorBehavior), OrElse(WhenFailure(t, y.when),
        OrElse(BuildFailure(t, y.onFailure), OrElse(BuildFailure(t, y.onSuccess), BuildFailure(t, y.ensure))))))
  }

  function BlockFailure(t: Translation, ys: seq<YamlStep>): Option<CompileError>
    decreases ys
  {
    if ys == [] then None else OrElse(StepFailure(t, ys[0]), BlockFailure(t, ys[1..]))
  }
}
