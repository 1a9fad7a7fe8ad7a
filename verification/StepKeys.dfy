/** How one step becomes a type key and a configuration (wfe-yaml/src/compiler.rs), and what that means for
    the list of registered factories. */
module StepKeys {
  import opened Prelude
  import opened Yaml
  import opened Layout

  datatype Kind = Shell | Deno | Buildkit | Containerd | Kubernetes | Cargo | Rustup | GitRepo | Workflow

  function KindName(k: Kind): string {
    match k
    case Shell => "shell"
    case Deno => "deno"
    case Buildkit => "buildkit"
    case Containerd => "containerd"
    case Kubernetes => "kubernetes"
    case Cargo => "cargo"
    case Rustup => "rustup"
    case GitRepo => "git_repo"
    case Workflow => "workflow"
  }

  const CARGO_TYPES: set<string> := {
    "cargo-build", "cargo-test", "cargo-check", "cargo-clippy", "cargo-fmt", "cargo-doc", "cargo-publish",
    "cargo-audit", "cargo-deny", "cargo-nextest", "cargo-llvm-cov", "cargo-doc-mdx"
  }

  const RUSTUP_TYPES: set<string> := {"rust-install", "rustup-toolchain", "rustup-component", "rustup-target"}

  /** Which step types a build with the given features knows. */
  function KnownType(stepType: string, features: set<string>): Option<Kind> {
    if stepType == "shell" then Some(Shell)
    else if stepType == "deno" && "deno" in features then Some(Deno)
    else if stepType == "buildkit" && "buildkit" in features then Some(Buildkit)
    else if stepType == "containerd" && "containerd" in features then Some(Containerd)
    else if stepType in {"kubernetes", "k8s"} && "kubernetes" in features then Some(Kubernetes)
    else if stepType in CARGO_TYPES && "rustlang" in features then Some(Cargo)
    else if stepType in RUSTUP_TYPES && "rustlang" in features then Some(Rustup)
    else if stepType == "git-repo" then Some(GitRepo)
    else if stepType == "workflow" then Some(Workflow)
    else None
  }

  lemma {:induction false} OnlyWorkflowIsWorkflow(stepType: string, features: set<string>)
    ensures KnownType(stepType, features) == Some(Workflow) <==> stepType == "workflow"
  {
    if stepType == "workflow" {
      assert stepType[0] == 'w';
      assert forall x :: x in CARGO_TYPES + RUSTUP_TYPES + {"kubernetes", "k8s"} ==> x[0] != 'w';
    }
  }

  /** The build of the compiler at hand: which step types it knows, and how each executor's configuration is
      assembled, which may fail. Sub-workflow steps are not among them: they are built below. */
  datatype Executors = Executors(
    features: set<string>,
    configure: (Kind, YamlStep) -> Result<string, CompileError>)

  function KeyOf(k: Kind, name: string): string {
    "wfe_yaml::" + (KindName(k) + "::" + name)
  }

  function BuildStep(ex: Executors, y: YamlStep): Result<(string, Config), CompileError> {
    var stepType := if y.stepType.Some? then y.stepType.value else "shell";
    match KnownType(stepType, ex.features)
    case None => Err("Unknown step type")
    case Some(Workflow) =>
      if y.config.None? then Err("missing 'config' section")
      else if y.config.value.childWorkflow.None? then Err("must have 'config.workflow'")
      else
        var version := if y.config.value.childVersion.Some? then y.config.value.childVersion.value else 1;
        Ok((KeyOf(Workflow, y.name), SubWorkflow(y.config.value.childWorkflow.value, version, y.outputs)))
    case Some(k) =>
      match ex.configure(k, y)
      case Err(e) => Err(e)
      case Ok(text) => Ok((KeyOf(k, y.name), Executor(text)))
  }

  /** The translation builds steps the standard way. */
  ghost predicate Standard(t: Translation, ex: Executors) {
    forall y :: t.build(y) == BuildStep(ex, y)
  }

  /** Error behaviours translate as map_error_behavior does, retry settings aside. */
  ghost predicate StandardErrors(t: Translation) {
    && t.mapError("suspend") == Ok(Suspend) && t.mapError("terminate") == Ok(Terminate)
    && t.mapError("compensate") == Ok(Compensate)
    && t.mapError("retry").Ok? && t.mapError("retry").value.Retry?
    && forall b :: t.mapError(b).Ok? ==> b in {"retry", "suspend", "terminate", "compensate"}
  }

  /** A sub-workflow step is built exactly when it names its workflow, with version 1 unless it says another, and with
      its outputs as output keys. */
  lemma {:induction false} WorkflowStepBuilt(ex: Executors, y: YamlStep)
    requires y.stepType == Some("workflow")
    ensures BuildStep(ex, y).Ok? <==> y.config.Some? && y.config.value.childWorkflow.Some?
    ensures BuildStep(ex, y).Ok? ==>
              var c := y.config.value;
              var version := if c.childVersion.Some? then c.childVersion.value else 1;
              BuildStep(ex, y).value
              == ("wfe_yaml::workflow::" + y.name, SubWorkflow(c.childWorkflow.value, version, y.outputs))
  {
    OnlyWorkflowIsWorkflow("workflow", ex.features);
    assert "wfe_yaml::" + ("workflow" + "::" + y.name) == "wfe_yaml::workflow::" + y.name;
  }

  /** What an executor's configuration gives under a key. */
  function Configured(r: Result<string, CompileError>, key: string): Result<(string, Config), CompileError> {
    match r
    case Ok(text) => Ok((key, Executor(text)))
    case Err(e) => Err(e)
  }

  /** Which executor builds a step of this type, and the word that its keys have. A step without a type is a shell
      step; most executors are there only with their feature. */
  predicate BuiltBy(stepType: Option<string>, features: set<string>, k: Kind, word: string) {
    match k
    case Shell => word == "shell" && stepType in {None, Some("shell")}
    case GitRepo => word == "git_repo" && stepType == Some("git-repo")
    case Deno => word == "deno" && stepType == Some("deno") && "deno" in features
    case Buildkit => word == "buildkit" && stepType == Some("buildkit") && "buildkit" in features
    case Containerd => word == "containerd" && stepType == Some("containerd") && "containerd" in features
    case Kubernetes =>
      word == "kubernetes" && stepType in {Some("kubernetes"), Some("k8s")} && "kubernetes" in features
    case Cargo => word == "cargo" && stepType.Some? && stepType.value in CARGO_TYPES && "rustlang" in features
    case Rustup => word == "rustup" && stepType.Some? && stepType.value in RUSTUP_TYPES && "rustlang" in features
    case Workflow => false
  }

  /** A step is built by the executor of its type, under a key made of that executor's word and the step's name. */
  lemma {:induction false} ExecutorStepBuilt(ex: Executors, y: YamlStep, k: Kind, word: string)
    requires BuiltBy(y.stepType, ex.features, k, word)
    ensures BuildStep(ex, y) == Configured(ex.configure(k, y), "wfe_yaml::" + word + "::" + y.name)
  {
    TypeIsKnown(y.stepType, ex.features, k, word);
    assert "wfe_yaml::" + (word + "::" + y.name) == "wfe_yaml::" + word + "::" + y.name;
  }

  lemma {:induction false} CargoTypesStart(x: string)
    requires x in CARGO_TYPES
    ensures |x| > 1 && x[0] == 'c' && x[1] == 'a'
  {
  }

  lemma {:induction false} RustupTypesStart(x: string)
    requires x in RUSTUP_TYPES
    ensures |x| > 1 && x[0] == 'r'
  {
  }

  lemma {:induction false} CargoIsKnown(x: string, features: set<string>)
    requires x in CARGO_TYPES && "rustlang" in features
    ensures KnownType(x, features) == Some(Cargo)
  {
    CargoTypesStart(x);
    assert "shell"[0] == 's' && "deno"[0] == 'd' && "buildkit"[0] == 'b' && "containerd"[1] == 'o';
    assert "kubernetes"[0] == 'k' && "k8s"[0] == 'k';
    assert x !in {"kubernetes", "k8s"};
  }

  lemma {:induction false} RustupIsKnown(x: string, features: set<string>)
    requires x in RUSTUP_TYPES && "rustlang" in features
    ensures KnownType(x, features) == Some(Rustup)
  {
    RustupTypesStart(x);
    assert "shell"[0] == 's' && "deno"[0] == 'd' && "buildkit"[0] == 'b' && "containerd"[0] == 'c';
    assert "kubernetes"[0] == 'k' && "k8s"[0] == 'k';
    assert x !in {"kubernetes", "k8s"};
    if x in CARGO_TYPES { CargoTypesStart(x); }
  }

  lemma {:induction false} GitRepoIsKnown(features: set<string>)
    ensures KnownType("git-repo", features) == Some(GitRepo)
  {
    var x := "git-repo";
    assert x[0] == 'g' && "shell"[0] == 's' && "deno"[0] == 'd' && "buildkit"[0] == 'b' && "containerd"[0] == 'c';
    assert "kubernetes"[0] == 'k' && "k8s"[0] == 'k';
    assert x !in {"kubernetes", "k8s"};
    if x in CARGO_TYPES { CargoTypesStart(x); }
    if x in RUSTUP_TYPES { RustupTypesStart(x); }
  }

  lemma {:induction false} TypeIsKnown(stepType: Option<string>, features: set<string>, k: Kind, word: string)
    requires BuiltBy(stepType, features, k, word)
    ensures KnownType(if stepType.Some? then stepType.value else "shell", features) == Some(k) && KindName(k) == word
  {
    assert "shell"[0] == 's' && "deno"[0] == 'd' && "buildkit"[0] == 'b' && "containerd"[0] == 'c';
    assert "kubernetes"[0] == 'k' && "k8s"[0] == 'k';
    if k == Cargo { CargoIsKnown(stepType.value, features); }
    if k == Rustup { RustupIsKnown(stepType.value, features); }
    if k == GitRepo { GitRepoIsKnown(features); }
  }

  /** Any other type is refused, unless it is `workflow`. */
  lemma {:induction false} OtherTypeRefused(ex: Executors, y: YamlStep)
    requires y.stepType != Some("workflow")
    ensures BuildStep(ex, y).Ok? ==> exists k, word :: BuiltBy(y.stepType, ex.features, k, word)
  {
    var known := KnownType(if y.stepType.Some? then y.stepType.value else "shell", ex.features);
    if known.Some? && known != Some(Workflow) {
      assert BuiltBy(y.stepType, ex.features, known.value, KindName(known.value));
    }
  }

  // ----- keys -----

  lemma {:induction false} NoColon(k: Kind, i: nat)
    requires i < |KindName(k)|
    ensures KindName(k)[i] != ':'
  {
  }

  lemma {:induction false} SplitAtColon(a: string, n: string, c: string, m: string)
    requires a + "::" + n == c + "::" + m
    requires forall i :: 0 <= i < |a| ==> a[i] != ':'
    requires forall i :: 0 <= i < |c| ==> c[i] != ':'
    ensures n == m
  {
    var l, r := a + "::" + n, c + "::" + m;
    assert l[|a|] == ':' && r[|c|] == ':';
    assert n == l[|a| + 2..] && m == r[|c| + 2..];
  }

  /** A key determines the name of its step, whatever the name contains. */
  lemma {:induction false} KeyTellsName(k: Kind, n: string, j: Kind, m: string)
    requires KeyOf(k, n) == KeyOf(j, m)
    ensures n == m
  {
    var a, c := KindName(k), KindName(j);
    forall i | 0 <= i < |a| ensures a[i] != ':' { NoColon(k, i); }
    forall i | 0 <= i < |c| ensures c[i] != ':' { NoColon(j, i); }
    DropPrefix("wfe_yaml::", a + "::" + n, c + "::" + m);
    SplitAtColon(a, n, c, m);
  }

  lemma {:induction false} DropPrefix(p: string, a: string, c: string)
    requires p + a == p + c
    ensures a == c
  {
    assert a == (p + a)[|p|..] && c == (p + c)[|p|..];
  }

  lemma {:induction false} KeyIsNoContainer(k: Kind, n: string)
    ensures KeyOf(k, n) != SEQUENCE_STEP
  {
    assert KeyOf(k, n)[4] == 'y';
  }

  // ----- the factory list -----

  function HookName(h: Option<YamlStep>): seq<string> { if h.Some? then [h.value.name] else [] }

  /** The names of the steps that get a factory, in push order. */
  function FactoryNames(ys: seq<YamlStep>): seq<string>
    decreases ys
  {
    if ys == [] then [] else StepFactoryNames(ys[0]) + FactoryNames(ys[1..])
  }

  function StepFactoryNames(y: YamlStep): seq<string>
    decreases y
  {
    if y.parallel.Block? then FactoryNames(y.parallel.steps)
    else HookName(y.onFailure) + HookName(y.onSuccess) + HookName(y.ensure) + [y.name]
  }

  ghost predicate IsKeyFor(key: string, name: string) { exists k :: key == KeyOf(k, name) }

  /** Position by position, `keys` are keys for `names`. */
  ghost predicate KeysFor(keys: seq<string>, names: seq<string>) {
    |keys| == |names| && forall i :: 0 <= i < |keys| ==> IsKeyFor(keys[i], names[i])
  }

  lemma {:induction false} BuiltKey(t: Translation, ex: Executors, y: YamlStep)
    requires Standard(t, ex) && t.build(y).Ok?
    ensures IsKeyFor(Key(t, y), y.name)
  {
    assert t.build(y) == BuildStep(ex, y);
    var stepType := if y.stepType.Some? then y.stepType.value else "shell";
    assert Key(t, y) == KeyOf(KnownType(stepType, ex.features).value, y.name);
  }

  lemma {:induction false} HookKey(t: Translation, ex: Executors, h: Option<YamlStep>)
    requires Standard(t, ex) && BuildFailure(t, h).None?
    ensures KeysFor(FactoryOf(t, h), HookName(h))
  {
    if h.Some? { BuiltKey(t, ex, h.value); }
  }

  lemma {:induction false} FactoryKeys(t: Translation, ex: Executors, ys: seq<YamlStep>)
    requires Standard(t, ex) && BlockFailure(t, ys).None?
    ensures KeysFor(Factories(t, ys), FactoryNames(ys))
    decreases ys
  {
    if ys != [] {
      StepFactoryKeys(t, ex, ys[0]);
      FactoryKeys(t, ex, ys[1..]);
    }
  }

  lemma {:induction false} StepFactoryKeys(t: Translation, ex: Executors, y: YamlStep)
    requires Standard(t, ex) && StepFailure(t, y).None?
    ensures KeysFor(StepFactories(t, y), StepFactoryNames(y))
    decreases y
  {
    if y.parallel.Block? {
      FactoryKeys(t, ex, y.parallel.steps);
    } else {
      HookKey(t, ex, y.onFailure);
      HookKey(t, ex, y.onSuccess);
      HookKey(t, ex, y.ensure);
      BuiltKey(t, ex, y);
    }
  }

  /** The step types of the steps that are not containers, in push order. */
  function TypesInOrder(steps: seq<WorkflowStep>): seq<string> {
    if steps == [] then []
    else (if steps[0].stepType == SEQUENCE_STEP then [] else [steps[0].stepType]) + TypesInOrder(steps[1..])
  }

  lemma {:induction false} TypesConcat(a: seq<WorkflowStep>, c: seq<WorkflowStep>)
    ensures TypesInOrder(a + c) == TypesInOrder(a) + TypesInOrder(c)
  {
    if a == [] {
      assert a + c == c;
    } else {
      assert (a + c)[1..] == a[1..] + c;
      TypesConcat(a[1..], c);
    }
  }

  lemma {:induction false} OneType(s: WorkflowStep)
    ensures TypesInOrder([s]) == if s.stepType == SEQUENCE_STEP then [] else [s.stepType]
  {
    assert [s][1..] == [];
  }

  lemma {:induction false} KeyedType(t: Translation, ex: Executors, s: WorkflowStep, y: YamlStep)
    requires Standard(t, ex) && t.build(y).Ok? && s.stepType == Key(t, y)
    ensures TypesInOrder([s]) == [Key(t, y)]
  {
    BuiltKey(t, ex, y);
    var k :| Key(t, y) == KeyOf(k, y.name);
    KeyIsNoContainer(k, y.name);
    OneType(s);
  }

  lemma {:induction false} HookType(t: Translation, ex: Executors, id: nat, h: Option<YamlStep>, next: Option<nat>)
    requires Standard(t, ex) && BuildFailure(t, h).None?
    ensures TypesInOrder(HookAt(t, id, h, next)) == FactoryOf(t, h)
  {
    if h.Some? { KeyedType(t, ex, Hook(t, id, h.value, next), h.value); }
  }

  lemma {:induction false} StepTypes(t: Translation, ex: Executors, y: YamlStep, b: nat, next: Option<nat>)
    requires Standard(t, ex) && StepFailure(t, y).None?
    ensures TypesInOrder(StepLayout(t, y, b, next)) == StepFactories(t, y)
    decreases y
  {
    if y.parallel.Block? {
      var inner := BlockLayout(t, y.parallel.steps, b + 1, |y.parallel.steps|);
      BlockTypes(t, ex, y.parallel.steps, b + 1, |y.parallel.steps|);
      TypesConcat(inner, [Container(t, y, b, next)]);
      OneType(Container(t, y, b, next));
    } else {
      RegularTypes(t, ex, y, b, next);
    }
  }

  lemma {:induction false} TypesConcat4(
      a: seq<WorkflowStep>, c: seq<WorkflowStep>, d: seq<WorkflowStep>, e: seq<WorkflowStep>)
    ensures TypesInOrder(a + c + d + e) == TypesInOrder(a) + TypesInOrder(c) + TypesInOrder(d) + TypesInOrder(e)
  {
    TypesConcat(a, c);
    TypesConcat(a + c, d);
    TypesConcat(a + c + d, e);
  }

  lemma {:induction false} RegularTypes(t: Translation, ex: Executors, y: YamlStep, b: nat, next: Option<nat>)
    requires Standard(t, ex) && !y.parallel.Block? && StepFailure(t, y).None?
    ensures TypesInOrder(StepLayout(t, y, b, next)) == StepFactories(t, y)
  {
    HookType(t, ex, b + 1, y.onFailure, None);
    HookType(t, ex, SuccessId(y, b), y.onSuccess, next);
    HookType(t, ex, EnsureId(y, b), y.ensure, if y.onSuccess.Some? then None else next);
    KeyedType(t, ex, MainStep(t, y, b, next), y);
    TypesConcat4(FailureHook(t, y, b), SuccessHook(t, y, b, next), EnsureHook(t, y, b, next),
                 [MainStep(t, y, b, next)]);
  }

  lemma {:induction false} BlockTypes(t: Translation, ex: Executors, ys: seq<YamlStep>, b: nat, wired: nat)
    requires Standard(t, ex) && BlockFailure(t, ys).None?
    ensures TypesInOrder(BlockLayout(t, ys, b, wired)) == Factories(t, ys)
    decreases ys
  {
    if ys != [] {
      var after := b + StepSize(ys[0]);
      var next := if wired > 0 && |ys| > 1 then Some(after) else None;
      var rest := if wired > 0 then wired - 1 else 0;
      StepTypes(t, ex, ys[0], b, next);
      BlockTypes(t, ex, ys[1..], after, rest);
      TypesConcat(StepLayout(t, ys[0], b, next), BlockLayout(t, ys[1..], after, rest));
    }
  }

  /** The host's check of a definition: the loop looks for a step whose type is not registered. */
  method CanExecuteWorkflow(steps: seq<WorkflowStep>, registered: set<string>) returns (ok: bool)
    ensures ok <==> forall s :: s in steps ==> s.stepType in registered
  {
    for i := 0 to |steps|
      invariant forall j :: 0 <= j < i ==> steps[j].stepType in registered
    {
      if steps[i].stepType !in registered {
        assert steps[i] in steps;
        return false;
      }
    }
    return true;
  }

  lemma {:induction false} TypesListed(steps: seq<WorkflowStep>)
    ensures forall s :: s in steps ==> s.stepType == SEQUENCE_STEP || s.stepType in TypesInOrder(steps)
  {
    if steps != [] { TypesListed(steps[1..]); }
  }

  /** The factory list is exactly the step types of the non-container steps in push order; once those and the
      sequence primitive are registered, the host's step-type check succeeds. */
  lemma {:induction false} FactoriesMatchSteps(t: Translation, ex: Executors, ys: seq<YamlStep>)
    requires Standard(t, ex) && BlockFailure(t, ys).None?
    ensures TypesInOrder(Compiled(t, ys, 0)) == Factories(t, ys)
    ensures forall s :: s in Compiled(t, ys, 0) ==> s.stepType == SEQUENCE_STEP || s.stepType in Factories(t, ys)
  {
    BlockTypes(t, ex, ys, 0, |ys|);
    TypesListed(Compiled(t, ys, 0));
  }

  /** Distinct names give distinct keys. */
  lemma {:induction false} DistinctKeys(keys: seq<string>, names: seq<string>)
    requires KeysFor(keys, names) && NoDup(names)
    ensures NoDup(keys)
  {
    forall i, j | 0 <= i < j < |keys| ensures keys[i] != keys[j] {
      assert IsKeyFor(keys[i], names[i]) && IsKeyFor(keys[j], names[j]);
      var k :| keys[i] == KeyOf(k, names[i]);
      var l :| keys[j] == KeyOf(l, names[j]);
      if keys[i] == keys[j] { KeyTellsName(k, names[i], l, names[j]); }
    }
  }

  // ----- sub-workflow references -----

  /** The workflow that a compiled step starts, if it starts one. */
  ghost predicate Starts(s: WorkflowStep, id: string) {
    s.config.Some? && s.config.value.SubWorkflow? && s.config.value.workflowId == id
  }

  lemma {:induction false} BuiltChild(t: Translation, ex: Executors, y: YamlStep, id: string)
    requires Standard(t, ex) && ConfigOf(t, y).Some? && ConfigOf(t, y).value.SubWorkflow?
    requires ConfigOf(t, y).value.workflowId == id
    ensures y.stepType == Some("workflow")
    ensures y.config.Some? && y.config.value.childWorkflow == Some(id)
  {
    assert t.build(y) == BuildStep(ex, y);
    var stepType := if y.stepType.Some? then y.stepType.value else "shell";
    assert KnownType(stepType, ex.features) == Some(Workflow);
    OnlyWorkflowIsWorkflow(stepType, ex.features);
  }
}
