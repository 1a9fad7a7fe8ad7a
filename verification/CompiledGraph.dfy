/** What a compiled definition looks like as a graph: its ids, the direction of its edges, the order in which
    its steps run, and which of them can be reached at all. */
module CompiledGraph {
  import opened Prelude
  import opened Yaml
  import opened Layout
  import opened Compiler

  // ----- ids -----

  ghost predicate HasId(steps: seq<WorkflowStep>, id: nat) {
    exists k :: 0 <= k < |steps| && steps[k].id == id
  }

  /** The steps carry the ids lo, lo + 1, ..., hi - 1, each exactly once, in whatever order. */
  ghost predicate IdsExact(steps: seq<WorkflowStep>, lo: nat, hi: nat) {
    && IdsWithin(steps, lo, hi)
    && (forall i, j :: 0 <= i < j < |steps| ==> steps[i].id != steps[j].id)
    && (forall id: nat :: lo <= id < hi ==> HasId(steps, id))
  }

  lemma {:induction false} IdsConcat(a: seq<WorkflowStep>, c: seq<WorkflowStep>, lo: nat, mid: nat, hi: nat)
    requires IdsExact(a, lo, mid) && IdsExact(c, mid, hi) && lo <= mid <= hi
    ensures IdsExact(a + c, lo, hi)
  {
    forall id: nat | lo <= id < hi ensures HasId(a + c, id) {
      if id < mid {
        assert HasId(a, id);
        var k :| 0 <= k < |a| && a[k].id == id;
        assert (a + c)[k].id == id;
      } else {
        assert HasId(c, id);
        var k :| 0 <= k < |c| && c[k].id == id;
        assert (a + c)[|a| + k].id == id;
      }
    }
  }

  /** Steps with consecutive ids, followed by the step with the id before them. */
  lemma {:induction false} IdsMainLast(hooks: seq<WorkflowStep>, main: WorkflowStep, b: nat, hi: nat)
    requires main.id == b < hi && IdsExact(hooks, b + 1, hi)
    ensures IdsExact(hooks + [main], b, hi)
  {
    var all := hooks + [main];
    assert all[|hooks|].id == b;
    forall id: nat | b <= id < hi ensures HasId(all, id) {
      if id > b {
        assert HasId(hooks, id);
        var k :| 0 <= k < |hooks| && hooks[k].id == id;
        assert all[k].id == id;
      }
    }
  }

  lemma {:induction false} HookIds(t: Translation, y: YamlStep, b: nat, next: Option<nat>)
    requires !y.parallel.Block?
    ensures var hooks := FailureHook(t, y, b) + SuccessHook(t, y, b, next) + EnsureHook(t, y, b, next);
            IdsExact(hooks, b + 1, b + StepSize(y))
  {
    var f, s, e := FailureHook(t, y, b), SuccessHook(t, y, b, next), EnsureHook(t, y, b, next);
    HookAtIds(t, b + 1, y.onFailure, None);
    HookAtIds(t, SuccessId(y, b), y.onSuccess, next);
    HookAtIds(t, EnsureId(y, b), y.ensure, if y.onSuccess.Some? then None else next);
    IdsConcat(f, s, b + 1, SuccessId(y, b), EnsureId(y, b));
    IdsConcat(f + s, e, b + 1, EnsureId(y, b), b + StepSize(y));
  }

  lemma {:induction false} HookAtIds(t: Translation, id: nat, h: Option<YamlStep>, next: Option<nat>)
    ensures IdsExact(HookAt(t, id, h, next), id, id + Count(h))
  {
    if h.Some? { assert HookAt(t, id, h, next)[0].id == id; }
  }

  lemma {:induction false} StepIdsExact(t: Translation, y: YamlStep, b: nat, next: Option<nat>)
    ensures IdsExact(StepLayout(t, y, b, next), b, b + StepSize(y))
    decreases y
  {
    if y.parallel.Block? {
      BlockIdsExact(t, y.parallel.steps, b + 1, |y.parallel.steps|);
      var inner := BlockLayout(t, y.parallel.steps, b + 1, |y.parallel.steps|);
      IdsMainLast(inner, Container(t, y, b, next), b, b + StepSize(y));
    } else {
      HookIds(t, y, b, next);
      IdsMainLast(FailureHook(t, y, b) + SuccessHook(t, y, b, next) + EnsureHook(t, y, b, next),
                  MainStep(t, y, b, next), b, b + StepSize(y));
    }
  }

  lemma {:induction false} BlockIdsExact(t: Translation, ys: seq<YamlStep>, b: nat, wired: nat)
    ensures IdsExact(BlockLayout(t, ys, b, wired), b, b + Size(ys))
    decreases ys
  {
    if ys != [] {
      var after := b + StepSize(ys[0]);
      var next := if wired > 0 && |ys| > 1 then Some(after) else None;
      var rest := if wired > 0 then wired - 1 else 0;
      StepIdsExact(t, ys[0], b, next);
      BlockIdsExact(t, ys[1..], after, rest);
      IdsConcat(StepLayout(t, ys[0], b, next), BlockLayout(t, ys[1..], after, rest), b, after, b + Size(ys));
    }
  }

  // ----- edges -----

  /** An outcome, child or compensation edge. */
  ghost predicate HasEdge(s: WorkflowStep, x: nat) {
    (exists o :: o in s.outcomes && o.nextStep == x) || x in s.children || s.compensation == Some(x)
  }

  /** Every edge leads from `s` to a larger id below `hi`, except perhaps the one to `next`;
      and there is at most one outcome. */
  ghost predicate EdgesUp(s: WorkflowStep, hi: nat, next: Option<nat>) {
    && |s.outcomes| <= 1
    && forall x: nat :: HasEdge(s, x) ==> s.id < x && (x < hi || next == Some(x))
  }

  lemma {:induction false} MainIdsWithin(ys: seq<YamlStep>, b: nat)
    ensures forall x :: x in MainIds(ys, b) ==> b <= x < b + Size(ys)
    decreases |ys|
  {
    if ys != [] { MainIdsWithin(ys[1..], b + StepSize(ys[0])); }
  }

  lemma {:induction false} StepEdges(t: Translation, y: YamlStep, b: nat, next: Option<nat>)
    requires next.Some? ==> next.value == b + StepSize(y)
    ensures forall s :: s in StepLayout(t, y, b, next) ==> EdgesUp(s, b + StepSize(y), next)
    decreases y
  {
    if y.parallel.Block? {
      MainIdsWithin(y.parallel.steps, b + 1);
      BlockEdges(t, y.parallel.steps, b + 1, |y.parallel.steps|);
      assert EdgesUp(Container(t, y, b, next), b + StepSize(y), next);
    } else {
      assert EdgesUp(MainStep(t, y, b, next), b + StepSize(y), next);
    }
  }

  lemma {:induction false} BlockEdges(t: Translation, ys: seq<YamlStep>, b: nat, wired: nat)
    ensures forall s :: s in BlockLayout(t, ys, b, wired) ==> EdgesUp(s, b + Size(ys), None)
    decreases ys
  {
    if ys != [] {
      var after := b + StepSize(ys[0]);
      var next := if wired > 0 && |ys| > 1 then Some(after) else None;
      var rest := if wired > 0 then wired - 1 else 0;
      StepEdges(t, ys[0], b, next);
      BlockEdges(t, ys[1..], after, rest);
      forall s | s in BlockLayout(t, ys, b, wired) ensures EdgesUp(s, b + Size(ys), None) {
        assert s in StepLayout(t, ys[0], b, next) || s in BlockLayout(t, ys[1..], after, rest);
        assert |ys| > 1 ==> Size(ys[1..]) >= 1;
      }
    }
  }

  /** Id discipline and acyclicity: the ids of a compiled block are exactly its interval, each once; every edge
      goes to an existing, larger id; no step has more than one outcome. */
  lemma {:induction false} CompiledIsOrdered(t: Translation, ys: seq<YamlStep>, b: nat)
    ensures IdsExact(Compiled(t, ys, b), b, b + Size(ys))
    ensures forall s :: s in Compiled(t, ys, b) ==> |s.outcomes| <= 1
    ensures forall s, x: nat :: s in Compiled(t, ys, b) && HasEdge(s, x) ==> s.id < x < b + Size(ys)
  {
    BlockIdsExact(t, ys, b, |ys|);
    BlockEdges(t, ys, b, |ys|);
  }

  // ----- run order -----

  function After(y: YamlStep): Option<YamlStep> {
    if y.parallel.Block? then None else if y.onSuccess.Some? then y.onSuccess else y.ensure
  }

  function AfterId(y: YamlStep, b: nat): nat {
    if y.onSuccess.Some? then SuccessId(y, b) else EnsureId(y, b)
  }

  /** The intended order of a block, by name: each step, then its success hook or else its ensure hook. */
  function RunNames(ys: seq<YamlStep>): seq<string> {
    if ys == [] then []
    else ([ys[0].name] + if After(ys[0]).Some? then [After(ys[0]).value.name] else []) + RunNames(ys[1..])
  }

  /** The same order, by id. */
  function RunIds(ys: seq<YamlStep>, b: nat): seq<nat> {
    if ys == [] then []
    else ([b] + if After(ys[0]).Some? then [AfterId(ys[0], b)] else []) + RunIds(ys[1..], b + StepSize(ys[0]))
  }

  /** The outcome of a step: exactly one edge, to `next`, or none. */
  ghost predicate Goes(s: WorkflowStep, next: Option<nat>) {
    if next.Some? then |s.outcomes| == 1 && s.outcomes[0].nextStep == next.value else s.outcomes == []
  }

  ghost predicate Stop(defn: seq<WorkflowStep>, id: nat, name: string, next: Option<nat>) {
    exists s :: s in defn && s.id == id && s.name == name && Goes(s, next)
  }

  /** Following outcome edges from ids[0] meets exactly the ids with these names, and then goes to `next`. */
  ghost predicate Visits(defn: seq<WorkflowStep>, ids: seq<nat>, names: seq<string>, next: Option<nat>) {
    && |ids| == |names| > 0
    && forall i :: 0 <= i < |ids| ==> StopAt(defn, ids, names, next, i)
  }

  ghost predicate StopAt(defn: seq<WorkflowStep>, ids: seq<nat>, names: seq<string>, next: Option<nat>, i: nat)
    requires i < |ids| == |names|
  {
    Stop(defn, ids[i], names[i], if i + 1 < |ids| then Some(ids[i + 1]) else next)
  }

  ghost predicate Contains(defn: seq<WorkflowStep>, part: seq<WorkflowStep>) {
    forall s :: s in part ==> s in defn
  }

  lemma {:induction false} VisitsConcat(
      defn: seq<WorkflowStep>, ids1: seq<nat>, names1: seq<string>, ids2: seq<nat>, names2: seq<string>,
      next: Option<nat>)
    requires ids2 != [] && Visits(defn, ids1, names1, Some(ids2[0])) && Visits(defn, ids2, names2, next)
    ensures Visits(defn, ids1 + ids2, names1 + names2, next)
  {
    var ids, names := ids1 + ids2, names1 + names2;
    forall i | 0 <= i < |ids| ensures StopAt(defn, ids, names, next, i) {
      if i < |ids1| {
        assert StopAt(defn, ids1, names1, Some(ids2[0]), i);
      } else {
        assert StopAt(defn, ids2, names2, next, i - |ids1|);
      }
    }
  }

  lemma {:induction false} StepVisits(t: Translation, defn: seq<WorkflowStep>, y: YamlStep, b: nat, next: Option<nat>)
    requires Contains(defn, StepLayout(t, y, b, next))
    ensures Visits(defn, [b] + if After(y).Some? then [AfterId(y, b)] else [],
                   [y.name] + if After(y).Some? then [After(y).value.name] else [], next)
  {
    var seg := StepLayout(t, y, b, next);
    if y.parallel.Block? {
      var c := Container(t, y, b, next);
      assert c in seg && Goes(c, next);
    } else {
      var main := MainStep(t, y, b, next);
      assert main in seg;
      if After(y).Some? {
        var h := Hook(t, AfterId(y, b), After(y).value, next);
        assert h in seg by {
          if y.onSuccess.Some? {
            assert h in SuccessHook(t, y, b, next);
          } else {
            assert h in EnsureHook(t, y, b, next);
          }
        }
        assert Goes(main, Some(AfterId(y, b))) && Goes(h, next);
        assert StopAt(defn, [b, AfterId(y, b)], [y.name, After(y).value.name], next, 0);
        assert StopAt(defn, [b, AfterId(y, b)], [y.name, After(y).value.name], next, 1);
        assert [b] + [AfterId(y, b)] == [b, AfterId(y, b)];
        assert [y.name] + [After(y).value.name] == [y.name, After(y).value.name];
      } else {
        assert Goes(main, next);
      }
    }
  }

  /** Compilation preserves run order: from the first id of a block, the outcome edges visit the YAML steps in
      order, each followed by its success hook or else its ensure hook, and then stop. */
  lemma {:induction false} RunOrder(t: Translation, defn: seq<WorkflowStep>, ys: seq<YamlStep>, b: nat)
    requires ys != [] && Contains(defn, Compiled(t, ys, b))
    ensures RunIds(ys, b)[0] == b
    ensures Visits(defn, RunIds(ys, b), RunNames(ys), None)
    decreases |ys|
  {
    var after := b + StepSize(ys[0]);
    var next := if |ys| > 1 then Some(after) else None;
    var seg := StepLayout(t, ys[0], b, next);
    assert Compiled(t, ys, b) == seg + Compiled(t, ys[1..], after);
    StepVisits(t, defn, ys[0], b, next);
    var ids := [b] + if After(ys[0]).Some? then [AfterId(ys[0], b)] else [];
    var names := [ys[0].name] + if After(ys[0]).Some? then [After(ys[0]).value.name] else [];
    if |ys| == 1 {
      assert ids + RunIds(ys[1..], after) == ids && names + RunNames(ys[1..]) == names;
    } else {
      RunOrder(t, defn, ys[1..], after);
      VisitsConcat(defn, ids, names, RunIds(ys[1..], after), RunNames(ys[1..]), None);
    }
  }

  /** Nothing else can be met: a walk along outcome edges from the same start is an initial part of the run. */
  lemma {:induction false} RunIsForced(
    defn: seq<WorkflowStep>, ids: seq<nat>, names: seq<string>, walk: seq<nat>, lo: nat, hi: nat)
    requires Visits(defn, ids, names, None) && IdsExact(defn, lo, hi)
    requires walk != [] && walk[0] == ids[0]
    requires forall i :: 0 <= i < |walk| - 1 ==> OutcomeEdge(defn, walk[i], walk[i + 1])
    ensures walk <= ids
    decreases |walk|
  {
    if |walk| > 1 {
      var init := walk[..|walk| - 1];
      assert forall i :: 0 <= i < |init| - 1 ==> OutcomeEdge(defn, init[i], init[i + 1]) by {
        forall i | 0 <= i < |init| - 1 ensures OutcomeEdge(defn, init[i], init[i + 1]) {
          assert OutcomeEdge(defn, walk[i], walk[i + 1]);
        }
      }
      RunIsForced(defn, ids, names, init, lo, hi);
      var k := |walk| - 2;
      assert OutcomeEdge(defn, walk[k], walk[k + 1]) && walk[k] == init[k] == ids[k];
      var s :| s in defn && s.id == walk[k] && exists o :: o in s.outcomes && o.nextStep == walk[k + 1];
      assert StopAt(defn, ids, names, None, k);
      var next := if k + 1 < |ids| then Some(ids[k + 1]) else None;
      var u :| u in defn && u.id == ids[k] && u.name == names[k] && Goes(u, next);
      SameId(defn, s, u, lo, hi);
    }
  }

  ghost predicate OutcomeEdge(defn: seq<WorkflowStep>, a: nat, c: nat) {
    exists s :: s in defn && s.id == a && exists o :: o in s.outcomes && o.nextStep == c
  }

  lemma {:induction false} SameId(defn: seq<WorkflowStep>, s: WorkflowStep, u: WorkflowStep, lo: nat, hi: nat)
    requires IdsExact(defn, lo, hi) && s in defn && u in defn && s.id == u.id
    ensures s == u
  {
    var i :| 0 <= i < |defn| && defn[i] == s;
    var j :| 0 <= j < |defn| && defn[j] == u;
  }

  /** `inner` at id `c` is the block `ys` at id `b` or a `parallel` block somewhere inside it. */
  ghost predicate IsBlock(ys: seq<YamlStep>, b: nat, inner: seq<YamlStep>, c: nat)
    decreases ys, 1
  {
    (inner == ys && c == b) || IsInnerBlock(ys, b, inner, c)
  }

  ghost predicate IsInnerBlock(ys: seq<YamlStep>, b: nat, inner: seq<YamlStep>, c: nat)
    decreases ys, 0
  {
    ys != [] && ((ys[0].parallel.Block? && IsBlock(ys[0].parallel.steps, b + 1, inner, c))
                 || IsInnerBlock(ys[1..], b + StepSize(ys[0]), inner, c))
  }

  lemma {:induction false} InnerBlockContained(
      t: Translation, ys: seq<YamlStep>, b: nat, w: nat, inner: seq<YamlStep>, c: nat)
    requires IsInnerBlock(ys, b, inner, c)
    ensures Contains(BlockLayout(t, ys, b, w), Compiled(t, inner, c))
    decreases ys
  {
    var after := b + StepSize(ys[0]);
    var rest := if w > 0 then w - 1 else 0;
    if ys[0].parallel.Block? && IsBlock(ys[0].parallel.steps, b + 1, inner, c) {
      if IsInnerBlock(ys[0].parallel.steps, b + 1, inner, c) {
        InnerBlockContained(t, ys[0].parallel.steps, b + 1, |ys[0].parallel.steps|, inner, c);
      }
    } else {
      InnerBlockContained(t, ys[1..], after, rest, inner, c);
    }
  }

  /** Run order holds at every nesting level of a compiled workflow. */
  lemma {:induction false} RunOrderEverywhere(t: Translation, ys: seq<YamlStep>, inner: seq<YamlStep>, c: nat)
    requires IsBlock(ys, 0, inner, c) && inner != []
    ensures Visits(Compiled(t, ys, 0), RunIds(inner, c), RunNames(inner), None) && RunIds(inner, c)[0] == c
  {
    if IsInnerBlock(ys, 0, inner, c) { InnerBlockContained(t, ys, 0, |ys|, inner, c); }
    RunOrder(t, Compiled(t, ys, 0), inner, c);
  }

  /** The host's first pointer is at step 0, but takes its display name from the first step of the list. That is
      the name of step 0 exactly when nothing is pushed before it: no hooks, and no children. */
  lemma {:induction false} FirstListedIsStepZero(t: Translation, ys: seq<YamlStep>)
    requires ys != []
    ensures Compiled(t, ys, 0) != []
    ensures Compiled(t, ys, 0)[0].id == 0 <==>
              if ys[0].parallel.Block? then ys[0].parallel.steps == []
              else ys[0].onFailure.None? && ys[0].onSuccess.None? && ys[0].ensure.None?
  {
    var after := StepSize(ys[0]);
    var next := if |ys| > 1 then Some(after) else None;
    var seg := StepLayout(t, ys[0], 0, next);
    assert Compiled(t, ys, 0) == seg + Compiled(t, ys[1..], after);
    if ys[0].parallel.Block? {
      var inner := Compiled(t, ys[0].parallel.steps, 1);
      assert seg == inner + [Container(t, ys[0], 0, next)];
      if ys[0].parallel.steps != [] {
        BlockIdsExact(t, ys[0].parallel.steps, 1, |ys[0].parallel.steps|);
        assert HasId(inner, 1);
        assert seg[0] == inner[0];
      }
    }
  }

  // ----- every YAML step is there, with its children and its compensation -----

  /** A `parallel` step lists the main steps of its block, in order; any other step has no children. */
  ghost predicate HasChildren(s: WorkflowStep, y: YamlStep) {
    if y.parallel.Block?
    then s.stepType == SEQUENCE_STEP && s.config.None? && s.children == MainIds(y.parallel.steps, s.id + 1)
    else s.children == []
  }

  /** A failing step is compensated by its `on_failure` hook, from which nothing continues. */
  ghost predicate HasCompensation(defn: seq<WorkflowStep>, s: WorkflowStep, y: YamlStep) {
    if y.parallel.Block? || y.onFailure.None? then s.compensation.None?
    else
      && s.errorBehavior == Some(Compensate)
      && exists h :: h in defn && s.compensation == Some(h.id) && h.name == y.onFailure.value.name && h.outcomes == []
  }

  /** The step is built from `y`: its name, and its key and configuration if they can be built. */
  ghost predicate BuiltFrom(t: Translation, s: WorkflowStep, y: YamlStep) {
    && s.name == y.name
    && (t.build(y).Ok? ==> s.stepType == t.build(y).value.0 && s.config == Some(t.build(y).value.1))
  }

  /** A hook, if there is one, is compiled at `id`, without children or compensation. */
  ghost predicate HasHook(t: Translation, defn: seq<WorkflowStep>, h: Option<YamlStep>, id: nat) {
    h.Some? ==>
      exists s :: s in defn && s.id == id && BuiltFrom(t, s, h.value) && s.children == [] && s.compensation.None?
  }

  ghost predicate HasHooks(t: Translation, defn: seq<WorkflowStep>, y: YamlStep, id: nat) {
    && HasHook(t, defn, y.onFailure, id + 1)
    && HasHook(t, defn, y.onSuccess, SuccessId(y, id))
    && HasHook(t, defn, y.ensure, EnsureId(y, id))
  }

  /** The step at `id` is the compiled form of `y`; without a block, it has its hooks after it. */
  ghost predicate Represents(t: Translation, defn: seq<WorkflowStep>, y: YamlStep, id: nat) {
    && (exists s :: s in defn && s.id == id && s.name == y.name && HasChildren(s, y) && HasCompensation(defn, s, y)
                    && (!y.parallel.Block? ==> BuiltFrom(t, s, y)))
    && (!y.parallel.Block? ==> HasHooks(t, defn, y, id))
  }

  lemma {:induction false} HooksRepresented(
      t: Translation, defn: seq<WorkflowStep>, y: YamlStep, b: nat, next: Option<nat>)
    requires !y.parallel.Block? && Contains(defn, StepLayout(t, y, b, next))
    ensures HasHooks(t, defn, y, b)
  {
    HookRepresented(t, defn, b + 1, y.onFailure, None);
    HookRepresented(t, defn, SuccessId(y, b), y.onSuccess, next);
    HookRepresented(t, defn, EnsureId(y, b), y.ensure, if y.onSuccess.Some? then None else next);
  }

  lemma {:induction false} HookRepresented(
      t: Translation, defn: seq<WorkflowStep>, id: nat, h: Option<YamlStep>, next: Option<nat>)
    requires Contains(defn, HookAt(t, id, h, next))
    ensures HasHook(t, defn, h, id)
  {
    if h.Some? {
      var s := Hook(t, id, h.value, next);
      assert s in HookAt(t, id, h, next);
      assert BuiltFrom(t, s, h.value);
    }
  }

  lemma {:induction false} StepRepresented(
      t: Translation, defn: seq<WorkflowStep>, y: YamlStep, b: nat, next: Option<nat>)
    requires Contains(defn, StepLayout(t, y, b, next))
    ensures Represents(t, defn, y, b)
  {
    if y.parallel.Block? {
      var s := Container(t, y, b, next);
      assert s in StepLayout(t, y, b, next) && HasChildren(s, y) && HasCompensation(defn, s, y);
    } else {
      var s := MainStep(t, y, b, next);
      assert s in StepLayout(t, y, b, next) && HasChildren(s, y);
      if y.onFailure.Some? {
        var h := Hook(t, b + 1, y.onFailure.value, None);
        assert h in FailureHook(t, y, b);
        assert h in StepLayout(t, y, b, next);
      }
      assert HasCompensation(defn, s, y) && BuiltFrom(t, s, y);
      HooksRepresented(t, defn, y, b, next);
    }
  }

  lemma {:induction false} BlockRepresented(t: Translation, defn: seq<WorkflowStep>, ys: seq<YamlStep>, b: nat, i: nat)
    requires Contains(defn, Compiled(t, ys, b)) && i < |ys|
    ensures Represents(t, defn, ys[i], MainIds(ys, b)[i])
    decreases |ys|
  {
    var after := b + StepSize(ys[0]);
    var next := if |ys| > 1 then Some(after) else None;
    assert Compiled(t, ys, b) == StepLayout(t, ys[0], b, next) + Compiled(t, ys[1..], after);
    if i == 0 {
      StepRepresented(t, defn, ys[0], b, next);
    } else {
      BlockRepresented(t, defn, ys[1..], after, i - 1);
    }
  }

  /** At every nesting level, each YAML step is compiled at its id, with its own key and configuration and the main
      steps of its block as children; without a block, each of its hooks is compiled at its id, with its own key and
      configuration, and the failure hook is its compensation. */
  lemma {:induction false} EveryStepRepresented(t: Translation, ys: seq<YamlStep>, inner: seq<YamlStep>, c: nat, i: nat)
    requires IsBlock(ys, 0, inner, c) && i < |inner|
    ensures Represents(t, Compiled(t, ys, 0), inner[i], MainIds(inner, c)[i])
  {
    if IsInnerBlock(ys, 0, inner, c) { InnerBlockContained(t, ys, 0, |ys|, inner, c); }
    BlockRepresented(t, Compiled(t, ys, 0), inner, c, i);
  }

  // ----- reachability -----

  ghost predicate Edge(defn: seq<WorkflowStep>, a: nat, c: nat) {
    exists s :: s in defn && s.id == a && HasEdge(s, c)
  }

  ghost predicate IsWalk(defn: seq<WorkflowStep>, p: seq<nat>) {
    p != [] && forall i :: 0 <= i < |p| - 1 ==> Edge(defn, p[i], p[i + 1])
  }

  /** Reachable along outcome, child and compensation edges. */
  ghost predicate Reach(defn: seq<WorkflowStep>, a: nat, c: nat) {
    exists p :: IsWalk(defn, p) && p[0] == a && p[|p| - 1] == c
  }

  lemma {:induction false} ReachEdge(defn: seq<WorkflowStep>, a: nat, s: WorkflowStep, c: nat)
    requires Reach(defn, a, s.id) && s in defn && HasEdge(s, c)
    ensures Reach(defn, a, c)
  {
    var p :| IsWalk(defn, p) && p[0] == a && p[|p| - 1] == s.id;
    var q := p + [c];
    forall i | 0 <= i < |q| - 1 ensures Edge(defn, q[i], q[i + 1]) {
      if i < |p| - 1 { assert Edge(defn, p[i], p[i + 1]); } else { assert Edge(defn, s.id, c); }
    }
    assert IsWalk(defn, q);
  }

  /** The ensure hook of a step that also has a success hook. */
  predicate StepOrphan(y: YamlStep, b: nat, id: nat)
    decreases y
  {
    if y.parallel.Block? then IsOrphan(y.parallel.steps, b + 1, id)
    else y.onSuccess.Some? && y.ensure.Some? && id == EnsureId(y, b)
  }

  predicate IsOrphan(ys: seq<YamlStep>, b: nat, id: nat)
    decreases ys
  {
    ys != [] && (StepOrphan(ys[0], b, id) || IsOrphan(ys[1..], b + StepSize(ys[0]), id))
  }

  lemma {:induction false} StepOrphanWithin(y: YamlStep, b: nat, id: nat)
    requires StepOrphan(y, b, id)
    ensures b < id < b + StepSize(y)
    decreases y
  {
    if y.parallel.Block? { OrphanWithin(y.parallel.steps, b + 1, id); }
  }

  lemma {:induction false} OrphanWithin(ys: seq<YamlStep>, b: nat, id: nat)
    requires IsOrphan(ys, b, id)
    ensures b < id < b + Size(ys)
    decreases ys
  {
    if StepOrphan(ys[0], b, id) {
      StepOrphanWithin(ys[0], b, id);
    } else {
      OrphanWithin(ys[1..], b + StepSize(ys[0]), id);
    }
  }

  /** Everything in the steps of one YAML step but the orphans is reached once its first id is. */
  lemma {:induction false} StepReach(
      t: Translation, defn: seq<WorkflowStep>, root: nat, y: YamlStep, b: nat, next: Option<nat>, id: nat)
    requires Contains(defn, StepLayout(t, y, b, next)) && Reach(defn, root, b)
    requires b <= id < b + StepSize(y) && !StepOrphan(y, b, id)
    ensures Reach(defn, root, id)
    decreases y
  {
    if id != b {
      if y.parallel.Block? {
        var c := Container(t, y, b, next);
        assert c in StepLayout(t, y, b, next) && y.parallel.steps != [];
        assert MainIds(y.parallel.steps, b + 1)[0] == b + 1;
        ReachEdge(defn, root, c, b + 1);
        BlockReach(t, defn, root, y.parallel.steps, b + 1, id);
      } else {
        var main := MainStep(t, y, b, next);
        assert main in StepLayout(t, y, b, next);
        assert HasEdge(main, id) by {
          if id == b + 1 && y.onFailure.Some? {
          } else {
            assert main.outcomes[0].nextStep == id;
          }
        }
        ReachEdge(defn, root, main, id);
      }
    }
  }

  /** The step that continues the block is reached, and so is the next one. */
  lemma {:induction false} NextReach(t: Translation, defn: seq<WorkflowStep>, root: nat, y: YamlStep, b: nat, next: nat)
    requires Contains(defn, StepLayout(t, y, b, Some(next))) && Reach(defn, root, b)
    ensures Reach(defn, root, next)
  {
    StepVisits(t, defn, y, b, Some(next));
    if After(y).Some? {
      var ids, names := [b] + [AfterId(y, b)], [y.name] + [After(y).value.name];
      assert StopAt(defn, ids, names, Some(next), 0) && StopAt(defn, ids, names, Some(next), 1);
      FollowStop(defn, root, b, y.name, AfterId(y, b));
      FollowStop(defn, root, AfterId(y, b), After(y).value.name, next);
    } else {
      assert StopAt(defn, [b] + [], [y.name] + [], Some(next), 0);
      FollowStop(defn, root, b, y.name, next);
    }
  }

  lemma {:induction false} FollowStop(defn: seq<WorkflowStep>, root: nat, a: nat, name: string, c: nat)
    requires Reach(defn, root, a) && Stop(defn, a, name, Some(c))
    ensures Reach(defn, root, c)
  {
    var s :| s in defn && s.id == a && s.name == name && Goes(s, Some(c));
    assert s.outcomes[0] in s.outcomes;
    ReachEdge(defn, root, s, c);
  }

  lemma {:induction false} BlockReach(
      t: Translation, defn: seq<WorkflowStep>, root: nat, ys: seq<YamlStep>, b: nat, id: nat)
    requires Contains(defn, Compiled(t, ys, b)) && Reach(defn, root, b)
    requires b <= id < b + Size(ys) && !IsOrphan(ys, b, id)
    ensures Reach(defn, root, id)
    decreases ys
  {
    var after := b + StepSize(ys[0]);
    var next := if |ys| > 1 then Some(after) else None;
    assert Compiled(t, ys, b) == StepLayout(t, ys[0], b, next) + Compiled(t, ys[1..], after);
    if id < after {
      StepReach(t, defn, root, ys[0], b, next, id);
    } else {
      NextReach(t, defn, root, ys[0], b, after);
      BlockReach(t, defn, root, ys[1..], after, id);
    }
  }

  /** No edge leads to an orphan. */
  lemma {:induction false} StepMissesOrphans(
      t: Translation, y: YamlStep, b: nat, next: Option<nat>, s: WorkflowStep, x: nat)
    requires s in StepLayout(t, y, b, next) && HasEdge(s, x) && next != Some(x)
    ensures !StepOrphan(y, b, x)
    decreases y
  {
    if y.parallel.Block? {
      var inner := y.parallel.steps;
      if s in Compiled(t, inner, b + 1) {
        BlockMissesOrphans(t, inner, b + 1, s, x);
      } else {
        assert s == Container(t, y, b, next);
        MainIsNoOrphan(inner, b + 1, x);
      }
    }
  }

  lemma {:induction false} MainIsNoOrphan(ys: seq<YamlStep>, b: nat, x: nat)
    requires x in MainIds(ys, b)
    ensures !IsOrphan(ys, b, x)
    decreases |ys|
  {
    var after := b + StepSize(ys[0]);
    MainIdsWithin(ys[1..], after);
    if IsOrphan(ys, b, x) {
      if StepOrphan(ys[0], b, x) { StepOrphanWithin(ys[0], b, x); }
      if IsOrphan(ys[1..], after, x) { OrphanWithin(ys[1..], after, x); }
      MainIsNoOrphan(ys[1..], after, x);
    }
  }

  lemma {:induction false} BlockMissesOrphans(t: Translation, ys: seq<YamlStep>, b: nat, s: WorkflowStep, x: nat)
    requires s in Compiled(t, ys, b) && HasEdge(s, x)
    ensures !IsOrphan(ys, b, x)
    decreases ys
  {
    var after := b + StepSize(ys[0]);
    var next := if |ys| > 1 then Some(after) else None;
    var seg := StepLayout(t, ys[0], b, next);
    assert Compiled(t, ys, b) == seg + Compiled(t, ys[1..], after);
    if StepOrphan(ys[0], b, x) { StepOrphanWithin(ys[0], b, x); }
    if IsOrphan(ys[1..], after, x) { OrphanWithin(ys[1..], after, x); }
    if s in seg {
      StepEdges(t, ys[0], b, next);
      if next != Some(x) { StepMissesOrphans(t, ys[0], b, next, s, x); }
    } else {
      BlockEdges(t, ys[1..], after, |ys[1..]|);
      BlockIds(t, ys[1..], after, |ys[1..]|);
      BlockMissesOrphans(t, ys[1..], after, s, x);
    }
  }

  /** Exact reachability: from step 0, every compiled step is reached except precisely the ensure hooks of steps
      that also have a success hook. */
  lemma {:induction false} ReachableExactly(t: Translation, ys: seq<YamlStep>, id: nat)
    requires id < Size(ys)
    ensures Reach(Compiled(t, ys, 0), 0, id) <==> !IsOrphan(ys, 0, id)
  {
    var defn := Compiled(t, ys, 0);
    if IsOrphan(ys, 0, id) {
      OrphanWithin(ys, 0, id);
      if Reach(defn, 0, id) {
        var p :| IsWalk(defn, p) && p[0] == 0 && p[|p| - 1] == id;
        assert Edge(defn, p[|p| - 2], p[|p| - 1]);
        var s :| s in defn && s.id == p[|p| - 2] && HasEdge(s, id);
        BlockMissesOrphans(t, ys, 0, s, id);
      }
    } else {
      assert IsWalk(defn, [0]);
      assert Reach(defn, 0, 0);
      BlockReach(t, defn, 0, ys, 0, id);
    }
  }
}
