/** The workflow compiler (wfe-yaml/src/compiler.rs): steps are pushed with growing ids and the outcome edges
    are added afterwards by searching for ids. Proved to produce exactly the compiled layout. */
module Compiler {
  import opened Prelude
  import opened Yaml
  import opened Layout

  // ----- appending steps and wiring them -----

  /** Index of the first step with the given id. */
  function FindById(steps: seq<WorkflowStep>, id: nat): (r: Option<nat>)
    ensures r.None? ==> forall k :: 0 <= k < |steps| ==> steps[k].id != id
    ensures r.Some? ==> r.value < |steps| && steps[r.value].id == id
    ensures r.Some? ==> forall k :: 0 <= k < r.value ==> steps[k].id != id
  {
    if steps == [] then None
    else if steps[0].id == id then Some(0)
    else match FindById(steps[1..], id)
      case None => None
      case Some(k) => Some(k + 1)
  }

  function WithOutcome(s: WorkflowStep, next: nat): WorkflowStep {
    s.(outcomes := s.outcomes + [StepOutcome(next, None)])
  }

  function LastOutcome(s: WorkflowStep): nat
    requires s.outcomes != []
  {
    s.outcomes[|s.outcomes| - 1].nextStep
  }

  /** Where the edge to the next main step goes: the step itself when it has no outcome yet, otherwise the hook
      its last outcome leads to, when that hook has none. */
  function WireIndex(steps: seq<WorkflowStep>, current: nat): (r: Option<nat>)
    ensures r.Some? ==> r.value < |steps|
  {
    match FindById(steps, current)
    case None => None
    case Some(k) =>
      if steps[k].outcomes == [] then Some(k)
      else
        match FindById(steps, LastOutcome(steps[k]))
        case None => None
        case Some(h) => if steps[h].outcomes == [] then Some(h) else None
  }

  function Wire(steps: seq<WorkflowStep>, current: nat, next: nat): seq<WorkflowStep> {
    match WireIndex(steps, current)
    case None => steps
    case Some(k) => steps[k := WithOutcome(steps[k], next)]
  }

  ghost predicate IdsBelow(steps: seq<WorkflowStep>, n: nat) {
    forall k :: 0 <= k < |steps| ==> steps[k].id < n
  }

  ghost predicate IdsWithin(steps: seq<WorkflowStep>, lo: nat, hi: nat) {
    forall k :: 0 <= k < |steps| ==> lo <= steps[k].id < hi
  }

  lemma {:induction false} AllBelow(a: seq<WorkflowStep>, c: seq<WorkflowStep>, m: nat, n: nat)
    requires IdsBelow(a, m) && IdsBelow(c, n) && m <= n
    ensures IdsBelow(a + c, n)
  {
  }

  lemma {:induction false} StepIds(t: Translation, y: YamlStep, b: nat, next: Option<nat>)
    ensures IdsWithin(StepLayout(t, y, b, next), b, b + StepSize(y))
    decreases y
  {
    if y.parallel.Block? { BlockIds(t, y.parallel.steps, b + 1, |y.parallel.steps|); }
  }

  lemma {:induction false} BlockIds(t: Translation, ys: seq<YamlStep>, b: nat, wired: nat)
    ensures IdsWithin(BlockLayout(t, ys, b, wired), b, b + Size(ys))
    decreases ys
  {
    if ys != [] {
      StepIds(t, ys[0], b, if wired > 0 && |ys| > 1 then Some(b + StepSize(ys[0])) else None);
      BlockIds(t, ys[1..], b + StepSize(ys[0]), if wired > 0 then wired - 1 else 0);
    }
  }

  /** Searching a list whose first part does not have the id. */
  lemma {:induction false} FindAfter(pre: seq<WorkflowStep>, seg: seq<WorkflowStep>, post: seq<WorkflowStep>, id: nat)
    requires forall k :: 0 <= k < |pre| ==> pre[k].id != id
    requires FindById(seg, id).Some?
    ensures FindById(pre + seg + post, id) == Some(|pre| + FindById(seg, id).value)
  {
    var all := pre + seg + post;
    var m := FindById(seg, id).value;
    assert all[|pre| + m] == seg[m];
    forall k | 0 <= k < |pre| + m ensures all[k].id != id {
      if k >= |pre| { assert all[k] == seg[k - |pre|]; } else { assert all[k] == pre[k]; }
    }
  }

  /** The segment holds the step with id `b` and, if that step has an outcome, the hook it leads to. */
  ghost predicate SelfContained(seg: seq<WorkflowStep>, b: nat) {
    && FindById(seg, b).Some?
    && var s := seg[FindById(seg, b).value];
       s.outcomes != [] ==> (LastOutcome(s) >= b && FindById(seg, LastOutcome(s)).Some?)
  }

  lemma {:induction false} WireIndexAfter(
      pre: seq<WorkflowStep>, seg: seq<WorkflowStep>, post: seq<WorkflowStep>, b: nat)
    requires IdsBelow(pre, b) && SelfContained(seg, b) && WireIndex(seg, b).Some?
    ensures WireIndex(pre + seg + post, b) == Some(|pre| + WireIndex(seg, b).value)
  {
    var all := pre + seg + post;
    FindAfter(pre, seg, post, b);
    var k := FindById(seg, b).value;
    assert all[|pre| + k] == seg[k];
    if seg[k].outcomes != [] {
      FindAfter(pre, seg, post, LastOutcome(seg[k]));
      var h := FindById(seg, LastOutcome(seg[k])).value;
      assert all[|pre| + h] == seg[h];
    }
  }

  lemma {:induction false} Regroup<T>(a: seq<T>, c: seq<T>, d: seq<T>)
    ensures (a + c) + d == a + (c + d)
  {
  }

  lemma {:induction false} Regroup4<T>(a: seq<T>, c: seq<T>, d: seq<T>, e: seq<T>, f: seq<T>)
    ensures a + c + d + e + f == a + (c + d + e + f)
  {
  }

  lemma {:induction false} UpdateMiddle<T>(pre: seq<T>, seg: seq<T>, post: seq<T>, k: nat, x: T)
    requires k < |seg|
    ensures (pre + seg + post)[|pre| + k] == seg[k]
    ensures (pre + seg + post)[|pre| + k := x] == pre + seg[k := x] + post
  {
  }

  /** Wiring acts inside the segment that has the id. */
  lemma {:induction false} WireAfter(
      pre: seq<WorkflowStep>, seg: seq<WorkflowStep>, post: seq<WorkflowStep>, b: nat, next: nat)
    requires IdsBelow(pre, b) && SelfContained(seg, b) && WireIndex(seg, b).Some?
    ensures Wire(pre + seg + post, b, next) == pre + Wire(seg, b, next) + post
  {
    WireIndexAfter(pre, seg, post, b);
    var k := WireIndex(seg, b).value;
    UpdateMiddle(pre, seg, post, k, WithOutcome(seg[k], next));
  }

  /** Inside the steps of one YAML step, wiring installs the edge to the next step. */
  lemma {:induction false} WireStep(t: Translation, y: YamlStep, b: nat, next: nat)
    ensures var seg := StepLayout(t, y, b, None);
            SelfContained(seg, b) && WireIndex(seg, b).Some? && Wire(seg, b, next) == StepLayout(t, y, b, Some(next))
  {
    if y.parallel.Block? {
      WireContainer(t, y, b, next);
    } else {
      WireRegularIndex(t, y, b);
      WireRegularResult(t, y, b, next);
    }
  }

  lemma {:induction false} WireContainer(t: Translation, y: YamlStep, b: nat, next: nat)
    requires y.parallel.Block?
    ensures var seg := StepLayout(t, y, b, None);
            SelfContained(seg, b) && WireIndex(seg, b).Some? && Wire(seg, b, next) == StepLayout(t, y, b, Some(next))
  {
    var seg := StepLayout(t, y, b, None);
    var inner := BlockLayout(t, y.parallel.steps, b + 1, |y.parallel.steps|);
    var c := Container(t, y, b, None);
    BlockIds(t, y.parallel.steps, b + 1, |y.parallel.steps|);
    assert seg == inner + [c] && seg[|inner|] == c;
    assert FindById(seg, b) == Some(|inner|);
    assert WithOutcome(c, next).outcomes == EdgeTo(Some(next));
    assert seg[|inner| := Container(t, y, b, Some(next))] == inner + [Container(t, y, b, Some(next))];
  }

  /** The ids in the steps of a regular YAML step: hooks count up from b + 1, the main step is last. */
  lemma {:induction false} RegularShape(t: Translation, y: YamlStep, b: nat)
    requires !y.parallel.Block?
    ensures var seg := StepLayout(t, y, b, None);
            && |seg| == 1 + Count(y.onFailure) + Count(y.onSuccess) + Count(y.ensure)
            && seg[|seg| - 1] == MainStep(t, y, b, None)
            && forall k :: 0 <= k < |seg| - 1 ==> seg[k].id == b + 1 + k && seg[k].outcomes == []
  {
    var f, s, e := FailureHook(t, y, b), SuccessHook(t, y, b, None), EnsureHook(t, y, b, None);
    assert StepLayout(t, y, b, None) == f + s + e + [MainStep(t, y, b, None)];
  }

  /** In a regular step, the place to wire from follows the failure hook: it is the success hook, or the ensure
      hook, or the main step, whichever comes first. */
  lemma {:induction false} WireRegularIndex(t: Translation, y: YamlStep, b: nat)
    requires !y.parallel.Block?
    ensures var seg := StepLayout(t, y, b, None);
            SelfContained(seg, b) && WireIndex(seg, b) == Some(Count(y.onFailure))
  {
    var seg := StepLayout(t, y, b, None);
    RegularShape(t, y, b);
    var i := Count(y.onFailure);
    assert FindById(seg, b) == Some(|seg| - 1);
    if i < |seg| - 1 {
      assert LastOutcome(MainStep(t, y, b, None)) == b + 1 + i;
      assert FindById(seg, b + 1 + i) == Some(i);
    }
  }

  lemma {:induction false} HookContinues(t: Translation, id: nat, h: YamlStep, next: nat)
    ensures WithOutcome(Hook(t, id, h, None), next) == Hook(t, id, h, Some(next))
  {
  }

  lemma {:induction false} ReplaceAfter<T>(f: seq<T>, h: T, rest: seq<T>, x: T)
    ensures (f + [h] + rest)[|f|] == h && (f + [h] + rest)[|f| := x] == f + [x] + rest
  {
  }

  lemma {:induction false} WireRegularResult(t: Translation, y: YamlStep, b: nat, next: nat)
    requires !y.parallel.Block?
    ensures var seg := StepLayout(t, y, b, None);
            var i := Count(y.onFailure);
            i < |seg| && seg[i := WithOutcome(seg[i], next)] == StepLayout(t, y, b, Some(next))
  {
    if y.onSuccess.Some? {
      WireFromSuccess(t, y, b, next);
    } else if y.ensure.Some? {
      WireFromEnsure(t, y, b, next);
    } else {
      WireFromMain(t, y, b, next);
    }
  }

  lemma {:induction false} WireFromSuccess(t: Translation, y: YamlStep, b: nat, next: nat)
    requires !y.parallel.Block? && y.onSuccess.Some?
    ensures var seg := StepLayout(t, y, b, None);
            var i := Count(y.onFailure);
            i < |seg| && seg[i := WithOutcome(seg[i], next)] == StepLayout(t, y, b, Some(next))
  {
    var f, rest := FailureHook(t, y, b), EnsureHook(t, y, b, None) + [MainStep(t, y, b, None)];
    var h := Hook(t, SuccessId(y, b), y.onSuccess.value, None);
    var x := Hook(t, SuccessId(y, b), y.onSuccess.value, Some(next));
    HookContinues(t, SuccessId(y, b), y.onSuccess.value, next);
    ReplaceAfter(f, h, rest, x);
    assert StepLayout(t, y, b, None) == f + [h] + rest;
    assert StepLayout(t, y, b, Some(next)) == f + [x] + rest;
  }

  lemma {:induction false} WireFromEnsure(t: Translation, y: YamlStep, b: nat, next: nat)
    requires !y.parallel.Block? && y.onSuccess.None? && y.ensure.Some?
    ensures var seg := StepLayout(t, y, b, None);
            var i := Count(y.onFailure);
            i < |seg| && seg[i := WithOutcome(seg[i], next)] == StepLayout(t, y, b, Some(next))
  {
    var f, rest := FailureHook(t, y, b), [MainStep(t, y, b, None)];
    var h, x := Hook(t, EnsureId(y, b), y.ensure.value, None), Hook(t, EnsureId(y, b), y.ensure.value, Some(next));
    HookContinues(t, EnsureId(y, b), y.ensure.value, next);
    ReplaceAfter(f, h, rest, x);
    assert StepLayout(t, y, b, None) == f + [h] + rest;
    assert StepLayout(t, y, b, Some(next)) == f + [x] + rest;
  }

  lemma {:induction false} WireFromMain(t: Translation, y: YamlStep, b: nat, next: nat)
    requires !y.parallel.Block? && y.onSuccess.None? && y.ensure.None?
    ensures var seg := StepLayout(t, y, b, None);
            var i := Count(y.onFailure);
            i < |seg| && seg[i := WithOutcome(seg[i], next)] == StepLayout(t, y, b, Some(next))
  {
    var f := FailureHook(t, y, b);
    var h, x := MainStep(t, y, b, None), MainStep(t, y, b, Some(next));
    assert WithOutcome(h, next) == x;
    ReplaceAfter(f, h, [], x);
    assert StepLayout(t, y, b, None) == f + [h] + [];
    assert StepLayout(t, y, b, Some(next)) == f + [x] + [];
  }

  lemma {:induction false} WireFirst(t: Translation, pre: seq<WorkflowStep>, ys: seq<YamlStep>, b: nat)
    requires |ys| > 1 && IdsBelow(pre, b)
    ensures Wire(pre + BlockLayout(t, ys, b, 0), b, b + StepSize(ys[0])) == pre + BlockLayout(t, ys, b, 1)
  {
    var after := b + StepSize(ys[0]);
    var seg, post := StepLayout(t, ys[0], b, None), BlockLayout(t, ys[1..], after, 0);
    WireStep(t, ys[0], b, after);
    WireAfter(pre, seg, post, b, after);
    Regroup(pre, seg, post);
    Regroup(pre, StepLayout(t, ys[0], b, Some(after)), post);
    assert BlockLayout(t, ys, b, 0) == seg + post;
    assert BlockLayout(t, ys, b, 1) == StepLayout(t, ys[0], b, Some(after)) + post;
  }

  lemma {:induction false} SplitBlock(t: Translation, pre: seq<WorkflowStep>, ys: seq<YamlStep>, b: nat, i: nat)
    requires |ys| > 1 && i > 0
    ensures var after := b + StepSize(ys[0]);
            pre + BlockLayout(t, ys, b, i)
            == (pre + StepLayout(t, ys[0], b, Some(after))) + BlockLayout(t, ys[1..], after, i - 1)
  {
  }

  /** One turn of the wiring loop puts the next connection of the block in place. */
  lemma {:induction false} WireBlock(t: Translation, pre: seq<WorkflowStep>, ys: seq<YamlStep>, b: nat, i: nat)
    requires i + 1 < |ys| && IdsBelow(pre, b)
    ensures Wire(pre + BlockLayout(t, ys, b, i), MainIds(ys, b)[i], MainIds(ys, b)[i + 1])
         == pre + BlockLayout(t, ys, b, i + 1)
    decreases i
  {
    var after := b + StepSize(ys[0]);
    if i == 0 {
      assert MainIds(ys, b)[1] == MainIds(ys[1..], after)[0] == after;
      WireFirst(t, pre, ys, b);
    } else {
      var seg := StepLayout(t, ys[0], b, Some(after));
      StepIds(t, ys[0], b, Some(after));
      SplitBlock(t, pre, ys, b, i);
      SplitBlock(t, pre, ys, b, i + 1);
      WireBlock(t, pre + seg, ys[1..], after, i - 1);
    }
  }

  lemma {:induction false} OneStepLayout(t: Translation, ys: seq<YamlStep>, b: nat, w: nat)
    requires |ys| == 1
    ensures BlockLayout(t, ys, b, w) == StepLayout(t, ys[0], b, None)
  {
    assert ys[1..] == [];
  }

  /** A block with all its connections asked for, or all but the impossible one after the last step. */
  lemma {:induction false} LastNeedsNoWire(t: Translation, ys: seq<YamlStep>, b: nat, w: nat)
    requires w + 1 >= |ys|
    ensures BlockLayout(t, ys, b, w) == Compiled(t, ys, b)
    decreases |ys|
  {
    if |ys| == 1 {
      OneStepLayout(t, ys, b, w);
      OneStepLayout(t, ys, b, 1);
    } else if |ys| > 1 {
      LastNeedsNoWire(t, ys[1..], b + StepSize(ys[0]), w - 1);
    }
  }

  lemma {:induction false} AppendSize(ys: seq<YamlStep>, y: YamlStep)
    ensures Size(ys + [y]) == Size(ys) + StepSize(y)
  {
    if ys == [] {
      assert ys + [y] == [y];
    } else {
      assert (ys + [y])[1..] == ys[1..] + [y];
      AppendSize(ys[1..], y);
    }
  }

  lemma {:induction false} AppendLayout(t: Translation, ys: seq<YamlStep>, y: YamlStep, b: nat)
    ensures BlockLayout(t, ys + [y], b, 0) == BlockLayout(t, ys, b, 0) + StepLayout(t, y, b + Size(ys), None)
    decreases |ys|
  {
    if ys == [] {
      assert ys + [y] == [y];
    } else {
      assert (ys + [y])[1..] == ys[1..] + [y];
      AppendLayout(t, ys[1..], y, b + StepSize(ys[0]));
    }
  }

  lemma {:induction false} AppendMainId(ys: seq<YamlStep>, y: YamlStep, b: nat)
    ensures MainIds(ys + [y], b) == MainIds(ys, b) + [b + Size(ys)]
    decreases |ys|
  {
    if ys == [] {
      assert ys + [y] == [y];
    } else {
      assert (ys + [y])[1..] == ys[1..] + [y];
      AppendMainId(ys[1..], y, b + StepSize(ys[0]));
    }
  }

  lemma {:induction false} AppendFactories(t: Translation, ys: seq<YamlStep>, y: YamlStep)
    ensures Factories(t, ys + [y]) == Factories(t, ys) + StepFactories(t, y)
    decreases |ys|
  {
    if ys == [] {
      assert ys + [y] == [y];
    } else {
      assert (ys + [y])[1..] == ys[1..] + [y];
      AppendFactories(t, ys[1..], y);
    }
  }

  lemma {:induction false} NoFailureSoFar(t: Translation, ys: seq<YamlStep>, i: nat)
    requires i <= |ys| && BlockFailure(t, ys[..i]).None?
    ensures BlockFailure(t, ys) == BlockFailure(t, ys[i..])
    decreases i
  {
    if i == 0 {
      assert ys[0..] == ys;
    } else {
      assert ys[..i][1..] == ys[1..][..i - 1] && ys[1..][i - 1..] == ys[i..];
      NoFailureSoFar(t, ys[1..], i - 1);
    }
  }

  lemma {:induction false} StillNoFailure(t: Translation, ys: seq<YamlStep>, i: nat)
    requires i < |ys| && BlockFailure(t, ys[..i]).None? && StepFailure(t, ys[i]).None?
    ensures BlockFailure(t, ys[..i + 1]).None?
  {
    assert ys[..i + 1][..i] == ys[..i] && ys[..i + 1][i..] == [ys[i]];
    NoFailureSoFar(t, ys[..i + 1], i);
  }

  /** What one more step adds to an unwired block, and to its failures. */
  lemma {:induction false} NextInBlock(t: Translation, ys: seq<YamlStep>, i: nat, b: nat)
    requires i < |ys| && BlockFailure(t, ys[..i]).None?
    ensures IdsBelow(BlockLayout(t, ys[..i], b, 0), b + Size(ys[..i]))
    ensures Size(ys[..i + 1]) == Size(ys[..i]) + StepSize(ys[i])
    ensures BlockLayout(t, ys[..i + 1], b, 0)
         == BlockLayout(t, ys[..i], b, 0) + StepLayout(t, ys[i], b + Size(ys[..i]), None)
    ensures MainIds(ys[..i + 1], b) == MainIds(ys[..i], b) + [b + Size(ys[..i])]
    ensures Factories(t, ys[..i + 1]) == Factories(t, ys[..i]) + StepFactories(t, ys[i])
    ensures StepFailure(t, ys[i]).Some? ==> BlockFailure(t, ys) == StepFailure(t, ys[i])
    ensures StepFailure(t, ys[i]).None? ==> BlockFailure(t, ys[..i + 1]).None?
  {
    BlockIds(t, ys[..i], b, 0);
    AppendSize(ys[..i], ys[i]);
    AppendLayout(t, ys[..i], ys[i], b);
    AppendMainId(ys[..i], ys[i], b);
    AppendFactories(t, ys[..i], ys[i]);
    assert ys[..i + 1] == ys[..i] + [ys[i]];
    NoFailureSoFar(t, ys, i);
    if StepFailure(t, ys[i]).None? { StillNoFailure(t, ys, i); }
  }

  // ----- the compiler -----

  /** The definition under construction: its steps, the registered factory keys and the next free id. */
  class Definition {
    const translation: Translation
    var steps: seq<WorkflowStep>
    var factories: seq<string>
    var nextId: nat

    constructor (translation: Translation)
      ensures this.translation == translation && steps == [] && factories == [] && nextId == 0
    {
      this.translation := translation;
      steps, factories, nextId := [], [], 0;
    }

    /** Compile a block: push the steps of every YAML step, then wire the main steps one after another.
        It fails with the first failure there is; otherwise it appends exactly the compiled layout of the
        block, leaving what was there before as it was. */
    method CompileSteps(yamlSteps: seq<YamlStep>) returns (r: Result<seq<nat>, CompileError>)
      requires IdsBelow(steps, nextId)
      modifies this
      ensures BlockFailure(translation, yamlSteps).Some? ==> r == Err(BlockFailure(translation, yamlSteps).value)
      ensures BlockFailure(translation, yamlSteps).None? ==>
        && r == Ok(MainIds(yamlSteps, old(nextId)))
        && steps == old(steps) + Compiled(translation, yamlSteps, old(nextId))
        && nextId == old(nextId) + Size(yamlSteps)
        && factories == old(factories) + Factories(translation, yamlSteps)
      decreases yamlSteps
    {
      r := PushAll(yamlSteps);
      if r.Ok? {
        WireAll(yamlSteps, r.value, old(nextId), old(steps));
      }
    }

    /** The state after pushing the steps `done`, before any wiring. */
    ghost predicate Pushed(done: seq<YamlStep>, base: nat, steps0: seq<WorkflowStep>, factories0: seq<string>)
      reads this
    {
      && steps == steps0 + BlockLayout(translation, done, base, 0)
      && nextId == base + Size(done)
      && factories == factories0 + Factories(translation, done)
    }

    /** The pushing loop over the steps of a block. */
    method PushAll(yamlSteps: seq<YamlStep>) returns (r: Result<seq<nat>, CompileError>)
      requires IdsBelow(steps, nextId)
      modifies this
      ensures BlockFailure(translation, yamlSteps).Some? ==> r == Err(BlockFailure(translation, yamlSteps).value)
      ensures BlockFailure(translation, yamlSteps).None? ==>
        r == Ok(MainIds(yamlSteps, old(nextId))) && Pushed(yamlSteps, old(nextId), old(steps), old(factories))
      decreases yamlSteps, 0
    {
      var mainStepIds := [];
      ghost var base := nextId;
      assert Pushed([], base, old(steps), old(factories));
      for i := 0 to |yamlSteps|
        invariant BlockFailure(translation, yamlSteps[..i]).None?
        invariant mainStepIds == MainIds(yamlSteps[..i], base)
        invariant Pushed(yamlSteps[..i], base, old(steps), old(factories))
      {
        NextInBlock(translation, yamlSteps, i, base);
        AllBelow(old(steps), BlockLayout(translation, yamlSteps[..i], base, 0), base, nextId);
        Regroup(old(steps), BlockLayout(translation, yamlSteps[..i], base, 0),
                StepLayout(translation, yamlSteps[i], nextId, None));
        Regroup(old(factories), Factories(translation, yamlSteps[..i]), StepFactories(translation, yamlSteps[i]));
        var stepId := CompileStep(yamlSteps[i]);
        if stepId.Err? {
          return Err(stepId.error);
        }
        mainStepIds := mainStepIds + [stepId.value];
      }
      assert yamlSteps[..|yamlSteps|] == yamlSteps;
      return Ok(mainStepIds);
    }

    /** The wiring loop over the main steps of a block. */
    method WireAll(
        ghost yamlSteps: seq<YamlStep>, mainStepIds: seq<nat>, ghost base: nat, ghost before: seq<WorkflowStep>)
      requires IdsBelow(before, base) && mainStepIds == MainIds(yamlSteps, base)
      requires steps == before + BlockLayout(translation, yamlSteps, base, 0)
      modifies this`steps
      ensures steps == before + Compiled(translation, yamlSteps, base)
    {
      var i := 0;
      while i + 1 < |mainStepIds|
        invariant i < |mainStepIds| || i == 0
        invariant steps == before + BlockLayout(translation, yamlSteps, base, i)
      {
        WireBlock(translation, before, yamlSteps, base, i);
        var found := FindById(steps, mainStepIds[i]);
        if found.Some? {
          var k := found.value;
          if steps[k].outcomes == [] {
            steps := steps[k := WithOutcome(steps[k], mainStepIds[i + 1])];
          } else {
            var hook := FindById(steps, LastOutcome(steps[k]));
            if hook.Some? && steps[hook.value].outcomes == [] {
              steps := steps[hook.value := WithOutcome(steps[hook.value], mainStepIds[i + 1])];
            }
          }
        }
        i := i + 1;
      }
      LastNeedsNoWire(translation, yamlSteps, base, i);
    }

    /** One YAML step: a container around its compiled children, or a main step after its hooks. */
    method CompileStep(y: YamlStep) returns (r: Result<nat, CompileError>)
      requires IdsBelow(steps, nextId)
      modifies this
      ensures StepFailure(translation, y).Some? ==> r == Err(StepFailure(translation, y).value)
      ensures StepFailure(translation, y).None? ==>
        && r == Ok(old(nextId))
        && steps == old(steps) + StepLayout(translation, y, old(nextId), None)
        && nextId == old(nextId) + StepSize(y)
        && factories == old(factories) + StepFactories(translation, y)
      decreases y
    {
      if y.parallel.Block? {
        r := CompileContainer(y);
      } else {
        r := CompileRegular(y);
      }
    }

    method CompileContainer(y: YamlStep) returns (r: Result<nat, CompileError>)
      requires y.parallel.Block? && IdsBelow(steps, nextId)
      modifies this
      ensures StepFailure(translation, y).Some? ==> r == Err(StepFailure(translation, y).value)
      ensures StepFailure(translation, y).None? ==>
        && r == Ok(old(nextId))
        && steps == old(steps) + StepLayout(translation, y, old(nextId), None)
        && nextId == old(nextId) + StepSize(y)
        && factories == old(factories) + StepFactories(translation, y)
      decreases y, 0
    {
      var containerId := nextId;
      nextId := nextId + 1;
      var container := WorkflowStep(containerId, SEQUENCE_STEP, y.name, None, None, [], [], None, None);
      if y.errorBehavior.Some? {
        var mapped := translation.mapError(y.errorBehavior.value);
        if mapped.Err? {
          return Err(mapped.error);
        }
        container := container.(errorBehavior := Some(mapped.value));
      }
      var childIds := CompileSteps(y.parallel.steps);
      if childIds.Err? {
        return Err(childIds.error);
      }
      container := container.(children := childIds.value);
      if y.when.Some? {
        var condition := translation.mapCondition(y.when.value);
        if condition.Err? {
          return Err(condition.error);
        }
        container := container.(when := Some(condition.value));
      }
      assert container == Container(translation, y, containerId, None);
      steps := steps + [container];
      return Ok(containerId);
    }

    /** If there is a hook, allocate an id for it and push it, with its factory. */
    method PushHook(hook: Option<YamlStep>) returns (r: Result<Option<nat>, CompileError>)
      modifies this
      ensures BuildFailure(translation, hook).Some? ==> r == Err(BuildFailure(translation, hook).value)
      ensures BuildFailure(translation, hook).None? ==>
        && r == Ok(if hook.Some? then Some(old(nextId)) else None)
        && nextId == old(nextId) + Count(hook)
        && steps == old(steps) + HookAt(translation, old(nextId), hook, None)
        && factories == old(factories) + FactoryOf(translation, hook)
    {
      if hook.None? {
        return Ok(None);
      }
      var id := nextId;
      nextId := nextId + 1;
      var built := translation.build(hook.value);
      if built.Err? {
        return Err(built.error);
      }
      var (key, config) := built.value;
      steps := steps + [WorkflowStep(id, key, hook.value.name, Some(config), None, [], [], None, None)];
      factories := factories + [built.value.0];
      return Ok(Some(id));
    }

    method CompileRegular(y: YamlStep) returns (r: Result<nat, CompileError>)
      requires !y.parallel.Block?
      modifies this
      ensures StepFailure(translation, y).Some? ==> r == Err(StepFailure(translation, y).value)
      ensures StepFailure(translation, y).None? ==>
        && r == Ok(old(nextId))
        && steps == old(steps) + StepLayout(translation, y, old(nextId), None)
        && nextId == old(nextId) + StepSize(y)
        && factories == old(factories) + StepFactories(translation, y)
    {
      var stepId := nextId;
      nextId := nextId + 1;
      var own := BuildMain(y, stepId);
      if own.Err? {
        return Err(own.error);
      }
      var hooked := PushHooks(y, own.value);
      if hooked.Err? {
        return Err(hooked.error);
      }
      Regroup4(old(steps), FailureHook(translation, y, stepId), SuccessHook(translation, y, stepId, None),
               EnsureHook(translation, y, stepId, None), [hooked.value]);
      Regroup4(old(factories), FactoryOf(translation, y.onFailure), FactoryOf(translation, y.onSuccess),
               FactoryOf(translation, y.ensure), [own.value.stepType]);
      steps := steps + [hooked.value];
      factories := factories + [own.value.stepType];
      return Ok(stepId);
    }

    /** The main step's own parts: key and configuration, error behaviour, condition. */
    method BuildMain(y: YamlStep, stepId: nat) returns (r: Result<WorkflowStep, CompileError>)
      ensures var failure := OrElse(Failure(translation.build(y)),
                OrElse(ErrorFailure(translation, y.errorBehavior), WhenFailure(translation, y.when)));
              r == if failure.Some? then Err(failure.value)
                   else Ok(WorkflowStep(stepId, Key(translation, y), y.name, ConfigOf(translation, y),
                             ErrorOf(translation, y.errorBehavior), [], [], None, WhenOf(translation, y.when)))
    {
      var built := translation.build(y);
      if built.Err? {
        return Err(built.error);
      }
      var step := WorkflowStep(stepId, built.value.0, y.name, Some(built.value.1), None, [], [], None, None);
      if y.errorBehavior.Some? {
        var mapped := translation.mapError(y.errorBehavior.value);
        if mapped.Err? {
          return Err(mapped.error);
        }
        step := step.(errorBehavior := Some(mapped.value));
      }
      if y.when.Some? {
        var condition := translation.mapCondition(y.when.value);
        if condition.Err? {
          return Err(condition.error);
        }
        step := step.(when := Some(condition.value));
      }
      return Ok(step);
    }

    /** The hooks of a step, pushed before it, and the edges the step has to them. */
    method PushHooks(y: YamlStep, own: WorkflowStep) returns (r: Result<WorkflowStep, CompileError>)
      requires own.id + 1 == nextId && own.outcomes == []
      modifies this
      ensures var failure := OrElse(BuildFailure(translation, y.onFailure),
                OrElse(BuildFailure(translation, y.onSuccess), BuildFailure(translation, y.ensure)));
              if failure.Some? then r == Err(failure.value) else
              && r == Ok(own.(
                   compensation := if y.onFailure.Some? then Some(own.id + 1) else own.compensation,
                   errorBehavior := if y.onFailure.Some? then Some(Compensate) else own.errorBehavior,
                   outcomes := if y.onSuccess.Some? then [StepOutcome(SuccessId(y, own.id), Some("success"))]
                               else if y.ensure.Some? then [StepOutcome(EnsureId(y, own.id), Some("ensure"))]
                               else []))
              && steps == old(steps) + FailureHook(translation, y, own.id) + SuccessHook(translation, y, own.id, None)
                          + EnsureHook(translation, y, own.id, None)
              && nextId == old(nextId) + Count(y.onFailure) + Count(y.onSuccess) + Count(y.ensure)
              && factories == old(factories) + FactoryOf(translation, y.onFailure) + FactoryOf(translation, y.onSuccess)
                              + FactoryOf(translation, y.ensure)
    {
      var step := own;
      var compId := PushHook(y.onFailure);
      if compId.Err? {
        return Err(compId.error);
      }
      if compId.value.Some? {
        step := step.(compensation := compId.value, errorBehavior := Some(Compensate));
      }
      var successId := PushHook(y.onSuccess);
      if successId.Err? {
        return Err(successId.error);
      }
      if successId.value.Some? {
        step := step.(outcomes := [StepOutcome(successId.value.value, Some("success"))]);
      }
      var ensureId := PushHook(y.ensure);
      if ensureId.Err? {
        return Err(ensureId.error);
      }
      if ensureId.value.Some? && y.onSuccess.None? {
        step := step.(outcomes := [StepOutcome(ensureId.value.value, Some("ensure"))]);
      }
      return Ok(step);
    }
  }
}
