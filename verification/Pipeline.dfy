/** The way from a file to compiled workflows (load_workflow_with_includes in wfe-yaml/src/lib.rs): load, validate the
    batch, compile each workflow. What a success guarantees is stated of the results alone. */
module Pipeline {
  import opened Prelude
  import opened Yaml
  import opened Layout
  import opened Compiler
  import opened CompiledGraph
  import opened CompiledSteps
  import opened StepKeys
  import opened Validation
  import Includes

  datatype CompiledWorkflow = CompiledWorkflow(
    id: string, version: nat, defaultError: Option<ErrorBehavior>, steps: seq<WorkflowStep>, factories: seq<string>)

  datatype Failed =
    | LoadFailed(load: Includes.LoadError)
    | Rejected(why: ValidationError)
    | CompileFailed(why: CompileError)

  function SpecFailure(t: Translation, spec: WorkflowSpec): Option<CompileError> {
    OrElse(ErrorFailure(t, spec.errorBehavior), BlockFailure(t, spec.steps))
  }

  /** Every step of every block of the workflow is compiled, at its place, to what it says. */
  ghost predicate AllTranslated(t: Translation, spec: WorkflowSpec, steps: seq<WorkflowStep>) {
    forall inner: seq<YamlStep>, c: nat, i: nat :: TranslatedAt(t, spec, steps, inner, c, i)
  }

  ghost predicate TranslatedAt(
      t: Translation, spec: WorkflowSpec, steps: seq<WorkflowStep>, inner: seq<YamlStep>, c: nat, i: nat)
  {
    IsBlock(spec.steps, 0, inner, c) && i < |inner| ==> Translates(t, steps, inner[i], MainIds(inner, c)[i])
  }

  /** Compilation of one workflow: its default error behaviour first, then its steps from id 0. It succeeds if and only
      if everything in it translates. */
  method Compile(t: Translation, spec: WorkflowSpec) returns (r: Result<CompiledWorkflow, CompileError>)
    ensures SpecFailure(t, spec).Some? ==> r == Err(SpecFailure(t, spec).value)
    ensures SpecFailure(t, spec).None? ==>
              r == Ok(CompiledWorkflow(spec.id, spec.version, ErrorOf(t, spec.errorBehavior),
                                       Compiled(t, spec.steps, 0), Factories(t, spec.steps)))
    ensures r.Ok? <==>
              && (spec.errorBehavior.Some? ==> t.mapError(spec.errorBehavior.value).Ok?)
              && forall inner: seq<YamlStep>, c: nat, i: nat :: CompilesAt(t, spec.steps, inner, c, i)
    ensures r.Ok? ==> AllTranslated(t, spec, r.value.steps)
    ensures r.Ok? ==> (r.value.defaultError.None? <==> spec.errorBehavior.None?)
    ensures r.Ok? && spec.errorBehavior.Some? ==>
              t.mapError(spec.errorBehavior.value) == Ok(r.value.defaultError.value)
  {
    var defaultError := None;
    if spec.errorBehavior.Some? {
      var mapped := t.mapError(spec.errorBehavior.value);
      if mapped.Err? { return Err(mapped.error); }
      defaultError := Some(mapped.value);
    }
    CompilesExactly(t, spec.steps);
    var definition := new Definition(t);
    var ids := definition.CompileSteps(spec.steps);
    if ids.Err? { return Err(ids.error); }
    assert [] + Compiled(t, spec.steps, 0) == Compiled(t, spec.steps, 0);
    assert [] + Factories(t, spec.steps) == Factories(t, spec.steps);
    forall inner: seq<YamlStep>, c: nat, i: nat ensures TranslatedAt(t, spec, definition.steps, inner, c, i) {
      if IsBlock(spec.steps, 0, inner, c) && i < |inner| { EveryStepTranslated(t, spec.steps, inner, c, i); }
    }
    r := Ok(CompiledWorkflow(spec.id, spec.version, defaultError, definition.steps, definition.factories));
  }

  /** The ids are 0, 1, ... without a gap, and every edge leads to a later step that exists. */
  ghost predicate WellFormed(w: CompiledWorkflow) {
    && IdsExact(w.steps, 0, |w.steps|)
    && (forall s :: s in w.steps ==> |s.outcomes| <= 1)
    && forall s, x: nat :: s in w.steps && HasEdge(s, x) ==> s.id < x < |w.steps|
  }

  /** Its factories are unambiguous and cover every step. */
  ghost predicate Registrable(w: CompiledWorkflow) {
    NoDup(w.factories) && forall s :: s in w.steps ==> s.stepType == SEQUENCE_STEP || s.stepType in w.factories
  }

  /** The compiled workflow runs the steps of its spec in their order, from step 0 on. */
  ghost predicate RunsInOrder(w: CompiledWorkflow, spec: WorkflowSpec) {
    && RunIds(spec.steps, 0) != [] && RunIds(spec.steps, 0)[0] == 0
    && Visits(w.steps, RunIds(spec.steps, 0), RunNames(spec.steps), None)
  }

  lemma {:induction false} SizeIsLength(t: Translation, ys: seq<YamlStep>, b: nat, wired: nat)
    ensures |BlockLayout(t, ys, b, wired)| == Size(ys)
    decreases ys
  {
    if ys != [] {
      var y, after := ys[0], b + StepSize(ys[0]);
      var next := if wired > 0 && |ys| > 1 then Some(after) else None;
      if y.parallel.Block? { SizeIsLength(t, y.parallel.steps, b + 1, |y.parallel.steps|); }
      assert |StepLayout(t, y, b, next)| == StepSize(y);
      SizeIsLength(t, ys[1..], after, if wired > 0 then wired - 1 else 0);
    }
  }

  lemma {:induction false} CompiledIsSound(
      t: Translation, ex: Executors, checks: Checks, spec: WorkflowSpec, w: CompiledWorkflow)
    requires Standard(t, ex) && SpecOk(checks, spec) && SpecFailure(t, spec).None?
    requires w.steps == Compiled(t, spec.steps, 0) && w.factories == Factories(t, spec.steps)
    ensures WellFormed(w) && Registrable(w) && RunsInOrder(w, spec)
  {
    SizeIsLength(t, spec.steps, 0, |spec.steps|);
    CompiledIsOrdered(t, spec.steps, 0);
    ValidatedFactoriesDistinct(t, ex, spec.steps);
    FactoriesMatchSteps(t, ex, spec.steps);
    RunOrder(t, w.steps, spec.steps, 0);
  }

  /** A step of one compiled workflow starts another of the same batch. */
  ghost predicate StartsIn(ws: seq<CompiledWorkflow>, a: string, c: string) {
    && (exists j :: 0 <= j < |ws| && ws[j].id == c)
    && exists i, s :: 0 <= i < |ws| && ws[i].id == a && s in ws[i].steps && Starts(s, c)
  }

  /** However workflows of the batch start one another, the nesting stays within the size of the batch. */
  ghost predicate NestingBounded(ws: seq<CompiledWorkflow>) {
    forall chain: seq<string> :: IsChain(ws, chain) ==> |chain| <= |ws|
  }

  ghost predicate IsChain(ws: seq<CompiledWorkflow>, chain: seq<string>) {
    && chain != [] && (exists j :: 0 <= j < |ws| && ws[j].id == chain[0])
    && forall i :: 0 <= i < |chain| - 1 ==> StartsIn(ws, chain[i], chain[i + 1])
  }

  ghost predicate CompiledFrom(t: Translation, specs: seq<WorkflowSpec>, ws: seq<CompiledWorkflow>) {
    && |ws| == |specs|
    && forall i :: 0 <= i < |ws| ==> ws[i].id == specs[i].id && ws[i].steps == Compiled(t, specs[i].steps, 0)
  }

  lemma {:induction false} BatchNestingBounded(
      t: Translation, ex: Executors, specs: seq<WorkflowSpec>, ws: seq<CompiledWorkflow>)
    requires Standard(t, ex) && NoDup(SpecIds(specs)) && CompiledFrom(t, specs, ws)
    requires !CycleDetection.HasCycle(Elems(SpecIds(specs)), Deps(specs))
    ensures NestingBounded(ws)
  {
    SpecIdsAt(specs);
    forall chain: seq<string> | IsChain(ws, chain) ensures |chain| <= |ws| {
      var j :| 0 <= j < |ws| && ws[j].id == chain[0];
      assert SpecIds(specs)[j] == chain[0];
      forall i | 0 <= i < |chain| - 1 ensures Invokes(t, specs, chain[i], chain[i + 1]) {
        assert StartsIn(ws, chain[i], chain[i + 1]);
        StartIsInvocation(t, specs, ws, chain[i], chain[i + 1]);
      }
      NestingIsBounded(t, ex, specs, chain);
    }
  }

  lemma {:induction false} StartIsInvocation(
      t: Translation, specs: seq<WorkflowSpec>, ws: seq<CompiledWorkflow>, a: string, c: string)
    requires CompiledFrom(t, specs, ws) && StartsIn(ws, a, c)
    ensures Invokes(t, specs, a, c)
  {
    SpecIdsAt(specs);
    var j :| 0 <= j < |ws| && ws[j].id == c;
    assert SpecIds(specs)[j] == c;
    var i, s :| 0 <= i < |ws| && ws[i].id == a && s in ws[i].steps && Starts(s, c);
    assert specs[i].id == a && s in Compiled(t, specs[i].steps, 0);
  }

  ghost predicate BatchOk(checks: Checks, specs: seq<WorkflowSpec>) {
    && (forall i :: 0 <= i < |specs| ==> SpecOk(checks, specs[i]))
    && DistinctSpecIds(specs) && !Circular(specs)
  }

  ghost predicate Compilable(t: Translation, specs: seq<WorkflowSpec>) {
    forall i :: 0 <= i < |specs| ==> SpecFailure(t, specs[i]).None?
  }

  ghost predicate AllSound(specs: seq<WorkflowSpec>, ws: seq<CompiledWorkflow>)
    requires |specs| == |ws|
  {
    forall i :: 0 <= i < |ws| ==> WellFormed(ws[i]) && Registrable(ws[i]) && RunsInOrder(ws[i], specs[i])
  }

  /** The first `i` workflows are compiled, and sound. */
  ghost predicate Done(t: Translation, specs: seq<WorkflowSpec>, ws: seq<CompiledWorkflow>, i: nat)
    requires i <= |specs|
  {
    |ws| == i && forall j :: 0 <= j < i ==> GoodResult(t, specs[j], ws[j])
  }

  ghost predicate GoodResult(t: Translation, spec: WorkflowSpec, w: CompiledWorkflow) {
    && SpecFailure(t, spec).None? && w.id == spec.id && w.steps == Compiled(t, spec.steps, 0)
    && WellFormed(w) && Registrable(w) && RunsInOrder(w, spec)
  }

  lemma {:induction false} OneMoreDone(
      t: Translation, specs: seq<WorkflowSpec>, ws: seq<CompiledWorkflow>, i: nat, w: CompiledWorkflow)
    requires i < |specs| && Done(t, specs, ws, i) && GoodResult(t, specs[i], w)
    ensures Done(t, specs, ws + [w], i + 1)
  {
    assert forall j :: 0 <= j < i ==> (ws + [w])[j] == ws[j];
  }

  lemma {:induction false} AllDone(t: Translation, specs: seq<WorkflowSpec>, ws: seq<CompiledWorkflow>)
    requires Done(t, specs, ws, |specs|)
    ensures Compilable(t, specs) && CompiledFrom(t, specs, ws) && AllSound(specs, ws)
  {
    assert forall j :: 0 <= j < |specs| ==> GoodResult(t, specs[j], ws[j]);
  }

  /** The compile loop. */
  method CompileAll(t: Translation, ghost checks: Checks, ghost ex: Executors, specs: seq<WorkflowSpec>)
    returns (r: Result<seq<CompiledWorkflow>, CompileError>)
    requires Standard(t, ex) && forall i :: 0 <= i < |specs| ==> SpecOk(checks, specs[i])
    ensures r.Ok? <==> Compilable(t, specs)
    ensures r.Ok? ==> CompiledFrom(t, specs, r.value) && AllSound(specs, r.value)
  {
    var ws := [];
    for i := 0 to |specs|
      invariant Done(t, specs, ws, i)
    {
      var one := Compile(t, specs[i]);
      if one.Err? { return Err(one.error); }
      CompiledIsSound(t, ex, checks, specs[i], one.value);
      OneMoreDone(t, specs, ws, i, one.value);
      ws := ws + [one.value];
    }
    AllDone(t, specs, ws);
    r := Ok(ws);
  }

  /** End to end, for any file system and any main file: a success is a batch of distinct workflows, each closed,
      ordered and registrable, each running its spec's steps in order, with bounded nesting among them. The load
      succeeds exactly when the files are usable and met once each, the merged specs pass validation, and every
      one of them compiles. */
  method LoadWorkflowWithIncludes(
      fs: Includes.FileSystem, main: Includes.Content, base: Includes.Path, checks: Checks, t: Translation,
      ghost ex: Executors)
    returns (r: Result<seq<CompiledWorkflow>, Failed>,
             ghost specs: seq<WorkflowSpec>, ghost trees: seq<Includes.IncludeTree>)
    requires Standard(t, ex)
    ensures r.Err? && r.error.LoadFailed? <==>
              !(Includes.Usable(main) && Includes.LoadableAll(fs, main.includes, {base}))
    ensures !(r.Err? && r.error.LoadFailed?) ==>
              && Includes.TreesOf(fs, main.includes, trees) && NoDup([base] + Includes.PreorderAll(trees))
              && (forall x :: x in specs <==>
                    Includes.Defines(main, x) || Includes.FirstDefined(fs, main, Includes.PreorderAll(trees), x))
              && (r.Ok? <==> BatchOk(checks, specs) && Compilable(t, specs))
              && (r.Err? && r.error.CompileFailed? <==> BatchOk(checks, specs) && !Compilable(t, specs))
    ensures r.Ok? ==> CompiledFrom(t, specs, r.value) && AllSound(specs, r.value) && NestingBounded(r.value)
  {
    var loaded;
    specs := [];
    loaded, trees := Includes.LoadWithIncludes(fs, main, base);
    if loaded.Err? { return Err(LoadFailed(loaded.error)), [], trees; }
    specs := loaded.value;
    var valid := ValidateMulti(checks, loaded.value);
    if valid.Err? { return Err(Rejected(valid.error)), specs, trees; }
    var compiled := CompileAll(t, checks, ex, loaded.value);
    if compiled.Err? { return Err(CompileFailed(compiled.error)), specs, trees; }
    DistinctMeans(specs);
    CycleMeansCircular(specs);
    BatchNestingBounded(t, ex, specs, compiled.value);
    r := Ok(compiled.value);
  }
}
