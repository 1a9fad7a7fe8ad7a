/** The parsed YAML side of the compiler (wfe-yaml/src/schema.rs) and the definition side
    (the records that compilation emits). */
module Yaml {
  import opened Prelude

  /** The parts of a step's configuration that the compiler itself looks at; everything an executor
      reads is kept as one opaque text. */
  datatype StepConfig = StepConfig(childWorkflow: Option<string>, childVersion: Option<nat>, executor: string)

  /** The optional `parallel` key of a step. */
  datatype ParallelBlock = NoBlock | Block(steps: seq<YamlStep>)

  datatype YamlStep = YamlStep(
    name: string,
    stepType: Option<string>,
    config: Option<StepConfig>,
    outputs: seq<string>,
    parallel: ParallelBlock,
    errorBehavior: Option<string>,
    onSuccess: Option<YamlStep>,
    onFailure: Option<YamlStep>,
    ensure: Option<YamlStep>,
    when: Option<string>)

  datatype WorkflowSpec = WorkflowSpec(id: string, version: nat, errorBehavior: Option<string>, steps: seq<YamlStep>)

  datatype ErrorBehavior = Retry(intervalMs: nat, maxRetries: nat) | Suspend | Terminate | Compensate

  datatype Config =
    | SubWorkflow(workflowId: string, version: nat, outputKeys: seq<string>)
    | Executor(text: string)

  datatype StepOutcome = StepOutcome(nextStep: nat, tag: Option<string>)

  datatype WorkflowStep = WorkflowStep(
    id: nat,
    stepType: string,
    name: string,
    config: Option<Config>,
    errorBehavior: Option<ErrorBehavior>,
    outcomes: seq<StepOutcome>,
    children: seq<nat>,
    compensation: Option<nat>,
    when: Option<string>)

  const SEQUENCE_STEP := "wfe_core::primitives::sequence::SequenceStep"

  type CompileError = string

  /** What compilation takes as given: how one step becomes a type key and a configuration, and how error
      behaviours and conditions are translated; each may fail. */
  datatype Translation = Translation(
    build: YamlStep -> Result<(string, Config), CompileError>,
    mapError: string -> Result<ErrorBehavior, CompileError>,
    mapCondition: string -> Result<string, CompileError>)
}
