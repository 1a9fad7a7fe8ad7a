/** Which YAML steps get a compiled step (wfe-yaml/src/compiler.rs:82-252). Validation looks at every step and hook,
    but compilation drops the hooks of `parallel` steps and whatever hooks or blocks a hook has itself. */
module CompiledNames {
  import opened Prelude
  import opened Yaml
  import opened Layout
  import opened CompiledGraph
  import opened StepKeys
  import opened Validation

  function NamesOf(steps: seq<WorkflowStep>): seq<string> {
    seq(|steps|, i requires 0 <= i < |steps| => steps[i].name)
  }

  /** The names of the emitted steps, in push order. */
  function Emitted(ys: seq<YamlStep>): seq<string>
    decreases ys
  {
    if ys == [] then [] else StepEmitted(ys[0]) + Emitted(ys[1..])
  }

  function StepEmitted(y: YamlStep): seq<string>
    decreases y
  {
    if y.parallel.Block? then Emitted(y.parallel.steps) + [y.name] else DirectHooks(y) + [y.name]
  }

  function DirectHooks(y: YamlStep): seq<string> { HookName(y.onFailure) + HookName(y.onSuccess) + HookName(y.ensure) }

  lemma {:induction false} StepNamesEmitted(t: Translation, y: YamlStep, b: nat, next: Option<nat>)
    ensures NamesOf(StepLayout(t, y, b, next)) == StepEmitted(y)
    decreases y
  {
    if y.parallel.Block? {
      NamesEmitted(t, y.parallel.steps, b + 1, |y.parallel.steps|);
    }
  }

  lemma {:induction false} NamesEmitted(t: Translation, ys: seq<YamlStep>, b: nat, w: nat)
    ensures NamesOf(BlockLayout(t, ys, b, w)) == Emitted(ys)
    decreases ys
  {
    if ys != [] {
      var after := b + StepSize(ys[0]);
      StepNamesEmitted(t, ys[0], b, if w > 0 && |ys| > 1 then Some(after) else None);
      NamesEmitted(t, ys[1..], after, if w > 0 then w - 1 else 0);
    }
  }

  // ----- where an emitted name comes from -----

  /** The step, or a direct hook of a step without a block. */
  predicate Gives(y: YamlStep, n: string) { n == y.name || (!y.parallel.Block? && n in DirectHooks(y)) }

  /** Some step of the block, or of a block inside it, gives the name. */
  ghost predicate GivenIn(ys: seq<YamlStep>, b: nat, n: string) {
    exists inner: seq<YamlStep>, c: nat, i: nat :: GivenAt(ys, b, inner, c, i, n)
  }

  ghost predicate GivenAt(ys: seq<YamlStep>, b: nat, inner: seq<YamlStep>, c: nat, i: nat, n: string) {
    IsBlock(ys, b, inner, c) && i < |inner| && Gives(inner[i], n)
  }

  lemma {:induction false} EmittedIsGiven(ys: seq<YamlStep>, b: nat, n: string)
    requires n in Emitted(ys)
    ensures GivenIn(ys, b, n)
    decreases ys
  {
    var y, after := ys[0], b + StepSize(ys[0]);
    if Gives(y, n) {
      assert GivenAt(ys, b, ys, b, 0, n);
    } else if n in StepEmitted(y) {
      EmittedIsGiven(y.parallel.steps, b + 1, n);
      var inner: seq<YamlStep>, c: nat, i: nat :| GivenAt(y.parallel.steps, b + 1, inner, c, i, n);
      assert GivenAt(ys, b, inner, c, i, n);
    } else {
      EmittedIsGiven(ys[1..], after, n);
      var inner: seq<YamlStep>, c: nat, i: nat :| GivenAt(ys[1..], after, inner, c, i, n);
      GivenInRest(ys, b, inner, c, i, n);
    }
  }

  lemma {:induction false} GivenInRest(ys: seq<YamlStep>, b: nat, inner: seq<YamlStep>, c: nat, i: nat, n: string)
    requires ys != [] && GivenAt(ys[1..], b + StepSize(ys[0]), inner, c, i, n)
    ensures GivenIn(ys, b, n)
  {
    if IsInnerBlock(ys[1..], b + StepSize(ys[0]), inner, c) {
      assert IsInnerBlock(ys, b, inner, c);
      assert GivenAt(ys, b, inner, c, i, n);
    } else {
      assert ys[i + 1] == inner[i];
      assert GivenAt(ys, b, ys, b, i + 1, n);
    }
  }

  lemma {:induction false} GivenIsEmitted(ys: seq<YamlStep>, b: nat, inner: seq<YamlStep>, c: nat, i: nat, n: string)
    requires GivenAt(ys, b, inner, c, i, n)
    ensures n in Emitted(ys)
    decreases ys
  {
    if !IsInnerBlock(ys, b, inner, c) {
      GivenHere(ys, i, n);
    } else if ys[0].parallel.Block? && IsBlock(ys[0].parallel.steps, b + 1, inner, c) {
      GivenIsEmitted(ys[0].parallel.steps, b + 1, inner, c, i, n);
    } else {
      GivenIsEmitted(ys[1..], b + StepSize(ys[0]), inner, c, i, n);
    }
  }

  lemma {:induction false} GivenHere(ys: seq<YamlStep>, i: nat, n: string)
    requires i < |ys| && Gives(ys[i], n)
    ensures n in Emitted(ys)
    decreases |ys|
  {
    if i == 0 {
      assert ys[0].name in StepEmitted(ys[0]);
    } else {
      GivenHere(ys[1..], i - 1, n);
    }
  }

  /** A name has a compiled step if and only if it is that of a step of some block, or of a direct hook of such a step
      that has no block of its own. */
  lemma {:induction false} CompiledNamesExactly(t: Translation, ys: seq<YamlStep>, n: string)
    ensures n in NamesOf(Compiled(t, ys, 0)) <==> GivenIn(ys, 0, n)
  {
    NamesEmitted(t, ys, 0, |ys|);
    if n in Emitted(ys) { EmittedIsGiven(ys, 0, n); }
    if GivenIn(ys, 0, n) {
      var inner: seq<YamlStep>, c: nat, i: nat :| GivenAt(ys, 0, inner, c, i, n);
      GivenIsEmitted(ys, 0, inner, c, i, n);
    }
  }

  // ----- when nothing is dropped -----

  predicate NoHooks(y: YamlStep) { y.onFailure.None? && y.onSuccess.None? && y.ensure.None? }

  /** A hook without hooks and without steps of its own. */
  predicate Plain(h: Option<YamlStep>) {
    h.Some? ==> NoHooks(h.value) && (h.value.parallel.Block? ==> h.value.parallel.steps == [])
  }

  predicate StepKept(y: YamlStep)
    decreases y
  {
    if y.parallel.Block? then NoHooks(y) && AllKept(y.parallel.steps)
    else Plain(y.onFailure) && Plain(y.onSuccess) && Plain(y.ensure)
  }

  /** No `parallel` step has a hook, and no hook has hooks or steps. */
  predicate AllKept(ys: seq<YamlStep>)
    decreases ys
  {
    ys != [] ==> StepKept(ys[0]) && AllKept(ys[1..])
  }

  lemma {:induction false} HookCompared(h: Option<YamlStep>)
    ensures multiset(HookName(h)) <= multiset(HookNames(h))
    ensures |HookName(h)| <= |HookNames(h)|
    ensures |HookName(h)| == |HookNames(h)| <==> Plain(h)
  {
    HookNameAmongAll(h);
    if h.Some? {
      var y := h.value;
      HookNonEmpty(y.onSuccess);
      HookNonEmpty(y.onFailure);
      HookNonEmpty(y.ensure);
      if y.parallel.Block? { BlockNonEmpty(y.parallel.steps); }
      assert |StepNames(y)|
          == |OwnNames(y)| + |HookNames(y.onSuccess)| + |HookNames(y.onFailure)| + |HookNames(y.ensure)|;
    }
  }

  lemma {:induction false} HookNonEmpty(h: Option<YamlStep>)
    ensures HookNames(h) == [] <==> h.None?
  {
    if h.Some? {
      assert |OwnNames(h.value)| >= 1;
      assert |StepNames(h.value)| >= |OwnNames(h.value)|;
    }
  }

  lemma {:induction false} BlockNonEmpty(ys: seq<YamlStep>)
    ensures AllNames(ys) == [] <==> ys == []
  {
    if ys != [] { HookNonEmpty(Some(ys[0])); }
  }

  /** The emitted names are among the validated ones, and as many of them exactly when nothing is dropped. */
  lemma {:induction false} StepCompared(y: YamlStep)
    ensures multiset(StepEmitted(y)) <= multiset(StepNames(y))
    ensures |StepEmitted(y)| <= |StepNames(y)|
    ensures |StepEmitted(y)| == |StepNames(y)| <==> StepKept(y)
    decreases y
  {
    if y.parallel.Block? {
      Compared(y.parallel.steps);
      HookNonEmpty(y.onSuccess);
      HookNonEmpty(y.onFailure);
      HookNonEmpty(y.ensure);
    } else {
      HookCompared(y.onFailure);
      HookCompared(y.onSuccess);
      HookCompared(y.ensure);
    }
  }

  lemma {:induction false} Compared(ys: seq<YamlStep>)
    ensures multiset(Emitted(ys)) <= multiset(AllNames(ys))
    ensures |Emitted(ys)| <= |AllNames(ys)|
    ensures |Emitted(ys)| == |AllNames(ys)| <==> AllKept(ys)
    decreases ys
  {
    if ys != [] {
      StepCompared(ys[0]);
      Compared(ys[1..]);
    }
  }

  lemma {:induction false} ElemsSize<T>(s: seq<T>)
    ensures |Elems(s)| <= |s|
  {
    if s != [] {
      var init, last := s[..|s| - 1], s[|s| - 1];
      ElemsSize(init);
      assert s == init + [last];
      assert Elems(s) == Elems(init) + {last};
    }
  }

  /** Every name of a validated workflow has a compiled step if and only if no `parallel` step has hooks and no hook has
      hooks or steps of its own. */
  lemma {:induction false} NamesKeptExactly(t: Translation, ys: seq<YamlStep>)
    requires NoDup(AllNames(ys))
    ensures Elems(NamesOf(Compiled(t, ys, 0))) <= Elems(AllNames(ys))
    ensures Elems(NamesOf(Compiled(t, ys, 0))) == Elems(AllNames(ys)) <==> AllKept(ys)
  {
    NamesEmitted(t, ys, 0, |ys|);
    Compared(ys);
    var some, all := Emitted(ys), AllNames(ys);
    forall n | n in Elems(some) ensures n in Elems(all) {
      assert n in multiset(some);
      assert n in multiset(all);
    }
    if Elems(some) == Elems(all) {
      NoDupSize(all);
      ElemsSize(some);
    }
    if AllKept(ys) { SameNames(some, all); }
  }

  lemma {:induction false} SameNames(some: seq<string>, all: seq<string>)
    requires multiset(some) <= multiset(all) && |some| == |all|
    ensures Elems(some) == Elems(all)
  {
    assert |multiset(some)| == |some| && |multiset(all)| == |all|;
    assert multiset(all) == multiset(some) + (multiset(all) - multiset(some));
    assert |multiset(all) - multiset(some)| == 0;
    forall n ensures n in Elems(all) <==> n in Elems(some) {
      assert n in all <==> n in multiset(all);
      assert n in some <==> n in multiset(some);
    }
  }

  // ----- what is dropped -----

  /** The names inside a hook, without its own. */
  function InsideHook(h: Option<YamlStep>): seq<string> {
    if h.None? then []
    else
      var y := h.value;
      (if y.parallel.Block? then AllNames(y.parallel.steps) else [])
      + (HookNames(y.onSuccess) + HookNames(y.onFailure) + HookNames(y.ensure))
  }

  /** What compilation drops of one step: all hooks of a `parallel` step, and what the hooks of another contain. */
  function OwnDropped(y: YamlStep): seq<string> {
    if y.parallel.Block? then HookNames(y.onSuccess) + HookNames(y.onFailure) + HookNames(y.ensure)
    else InsideHook(y.onSuccess) + InsideHook(y.onFailure) + InsideHook(y.ensure)
  }

  function AllDropped(ys: seq<YamlStep>): seq<string>
    decreases ys
  {
    if ys == [] then [] else StepDropped(ys[0]) + AllDropped(ys[1..])
  }

  function StepDropped(y: YamlStep): seq<string>
    decreases y
  {
    OwnDropped(y) + if y.parallel.Block? then AllDropped(y.parallel.steps) else []
  }

  lemma {:induction false} HookSplits(h: Option<YamlStep>)
    ensures multiset(HookNames(h)) == multiset(HookName(h)) + multiset(InsideHook(h))
  {
    if h.Some? {
      var y := h.value;
      assert HookNames(h) == StepNames(y);
      var kids := if y.parallel.Block? then AllNames(y.parallel.steps) else [];
      var hooks := HookNames(y.onSuccess) + HookNames(y.onFailure) + HookNames(y.ensure);
      assert StepNames(y) == ([y.name] + kids) + hooks;
      assert InsideHook(h) == kids + hooks;
    }
  }

  lemma {:induction false} StepSplits(y: YamlStep)
    ensures multiset(StepNames(y)) == multiset(StepEmitted(y)) + multiset(StepDropped(y))
    decreases y
  {
    if y.parallel.Block? {
      NamesSplit(y.parallel.steps);
    } else {
      HookSplits(y.onFailure);
      HookSplits(y.onSuccess);
      HookSplits(y.ensure);
    }
  }

  /** Every validated name, counted with its occurrences, is either emitted or dropped. */
  lemma {:induction false} NamesSplit(ys: seq<YamlStep>)
    ensures multiset(AllNames(ys)) == multiset(Emitted(ys)) + multiset(AllDropped(ys))
    decreases ys
  {
    if ys != [] {
      StepSplits(ys[0]);
      NamesSplit(ys[1..]);
    }
  }

  /** Of a validated workflow, a name has a compiled step if and only if it is not dropped. */
  lemma {:induction false} DroppedExactly(t: Translation, ys: seq<YamlStep>, n: string)
    requires NoDup(AllNames(ys)) && n in AllNames(ys)
    ensures n in NamesOf(Compiled(t, ys, 0)) <==> n !in AllDropped(ys)
  {
    NamesEmitted(t, ys, 0, |ys|);
    NamesSplit(ys);
    CountsToPositions(AllNames(ys));
    var all, some, gone := multiset(AllNames(ys)), multiset(Emitted(ys)), multiset(AllDropped(ys));
    assert all[n] == some[n] + gone[n] && all[n] <= 1;
    assert n in AllNames(ys) <==> n in all;
    assert n in Emitted(ys) <==> n in some;
    assert n in AllDropped(ys) <==> n in gone;
  }

  lemma {:induction false} DroppedHere(ys: seq<YamlStep>, i: nat, n: string)
    requires i < |ys| && n in OwnDropped(ys[i])
    ensures n in AllDropped(ys)
    decreases |ys|
  {
    if i > 0 { DroppedHere(ys[1..], i - 1, n); }
  }

  lemma {:induction false} DroppedInside(ys: seq<YamlStep>, b: nat, inner: seq<YamlStep>, c: nat, i: nat, n: string)
    requires IsBlock(ys, b, inner, c) && i < |inner| && n in OwnDropped(inner[i])
    ensures n in AllDropped(ys)
    decreases ys
  {
    if !IsInnerBlock(ys, b, inner, c) {
      DroppedHere(ys, i, n);
    } else if ys[0].parallel.Block? && IsBlock(ys[0].parallel.steps, b + 1, inner, c) {
      DroppedInside(ys[0].parallel.steps, b + 1, inner, c, i, n);
    } else {
      DroppedInside(ys[1..], b + StepSize(ys[0]), inner, c, i, n);
    }
  }

  /** So in a validated workflow, at every nesting level, the hooks of a `parallel` step and the contents of any other
      step's hooks have no compiled step. */
  lemma {:induction false} HookIsDropped(
      t: Translation, ys: seq<YamlStep>, inner: seq<YamlStep>, c: nat, i: nat, n: string)
    requires NoDup(AllNames(ys)) && IsBlock(ys, 0, inner, c) && i < |inner| && n in OwnDropped(inner[i])
    ensures n in AllNames(ys) && n !in NamesOf(Compiled(t, ys, 0))
  {
    DroppedInside(ys, 0, inner, c, i, n);
    NamesSplit(ys);
    assert n in multiset(AllDropped(ys));
    assert n in multiset(AllNames(ys));
    DroppedExactly(t, ys, n);
  }
}
