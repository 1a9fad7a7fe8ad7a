/** Loading a workflow file together with the files it includes (wfe-yaml/src/lib.rs). */
module Includes {
  import opened Prelude
  import opened Yaml

  /** A canonical path. */
  type Path = string

  /** What reading and parsing a file gives. Include entries are already resolved against the file's directory:
      a canonical path, or nothing when there is no such file. */
  datatype Content =
    | Unreadable
    | Parsed(includes: seq<Option<Path>>, workflow: Option<WorkflowSpec>, workflows: Option<seq<WorkflowSpec>>)

  type FileSystem = map<Path, Content>

  datatype LoadError = NotFound | Circular(path: Path) | BadFile | BadSpecs

  function Read(fs: FileSystem, p: Path): Content { if p in fs then fs[p] else Unreadable }

  /** Exactly one of `workflow` and a non-empty `workflows`. */
  function ResolveSpecs(c: Content): Result<seq<WorkflowSpec>, LoadError> {
    match c
    case Unreadable => Err(BadFile)
    case Parsed(_, Some(single), None) => Ok([single])
    case Parsed(_, None, Some(multi)) => if multi == [] then Err(BadSpecs) else Ok(multi)
    case Parsed(_, Some(_), Some(_)) => Err(BadSpecs)
    case Parsed(_, None, None) => Err(BadSpecs)
  }

  function Specs(fs: FileSystem, p: Path): seq<WorkflowSpec> {
    if ResolveSpecs(Read(fs, p)).Ok? then ResolveSpecs(Read(fs, p)).value else []
  }

  function IncludesOf(fs: FileSystem, p: Path): seq<Option<Path>> {
    if Read(fs, p).Parsed? then Read(fs, p).includes else []
  }

  /** A file that can be used: it has one of `workflow` and `workflows`, not both, and the list is not empty. */
  predicate Usable(c: Content) {
    c.Parsed? && (c.workflow.Some? <==> c.workflows.None?) && (c.workflows.Some? ==> c.workflows.value != [])
  }

  /** The file has this spec, as its one workflow or in its list. */
  predicate Defines(c: Content, x: WorkflowSpec) {
    Usable(c) && (c.workflow == Some(x) || (c.workflows.Some? && x in c.workflows.value))
  }

  lemma {:induction false} ResolveExactly(c: Content)
    ensures ResolveSpecs(c).Ok? <==> Usable(c)
    ensures ResolveSpecs(c).Ok? ==> forall x :: x in ResolveSpecs(c).value <==> Defines(c, x)
  {
  }

  // ----- the include tree -----

  datatype IncludeTree = Node(path: Path, children: seq<IncludeTree>)

  /** `tree` is the include tree of `target`: every include resolved, every file usable. */
  ghost predicate TreeOf(fs: FileSystem, target: Option<Path>, tree: IncludeTree)
    decreases tree
  {
    && target == Some(tree.path)
    && tree.path in fs && Usable(fs[tree.path])
    && |tree.children| == |fs[tree.path].includes|
    && forall i :: 0 <= i < |tree.children| ==> TreeOf(fs, fs[tree.path].includes[i], tree.children[i])
  }

  ghost predicate TreesOf(fs: FileSystem, targets: seq<Option<Path>>, trees: seq<IncludeTree>) {
    |trees| == |targets| && forall i :: 0 <= i < |trees| ==> TreeOf(fs, targets[i], trees[i])
  }

  /** Depth-first preorder. */
  function Preorder(tree: IncludeTree): seq<Path>
    decreases tree
  {
    [tree.path] + PreorderAll(tree.children)
  }

  function PreorderAll(trees: seq<IncludeTree>): seq<Path>
    decreases trees
  {
    if trees == [] then [] else Preorder(trees[0]) + PreorderAll(trees[1..])
  }

  /** The include tree exists, and no file in it is met twice or was visited before. */
  ghost predicate Loadable(fs: FileSystem, target: Option<Path>, visited: set<Path>) {
    exists tree :: TreeOf(fs, target, tree) && Fresh(Preorder(tree), visited)
  }

  ghost predicate LoadableAll(fs: FileSystem, targets: seq<Option<Path>>, visited: set<Path>) {
    exists trees :: TreesOf(fs, targets, trees) && Fresh(PreorderAll(trees), visited)
  }

  lemma {:induction false} TreeUnique(fs: FileSystem, target: Option<Path>, a: IncludeTree, c: IncludeTree)
    requires TreeOf(fs, target, a) && TreeOf(fs, target, c)
    ensures a == c
    decreases a
  {
    forall i | 0 <= i < |a.children| ensures a.children[i] == c.children[i] {
      TreeUnique(fs, IncludesOf(fs, a.path)[i], a.children[i], c.children[i]);
    }
    assert a.children == c.children;
  }

  lemma {:induction false} TreesUnique(
      fs: FileSystem, targets: seq<Option<Path>>, a: seq<IncludeTree>, c: seq<IncludeTree>)
    requires TreesOf(fs, targets, a) && TreesOf(fs, targets, c)
    ensures a == c
  {
    forall i | 0 <= i < |a| ensures a[i] == c[i] { TreeUnique(fs, targets[i], a[i], c[i]); }
  }

  lemma {:induction false} PreorderConcat(a: seq<IncludeTree>, c: seq<IncludeTree>)
    ensures PreorderAll(a + c) == PreorderAll(a) + PreorderAll(c)
    decreases |a|
  {
    if a == [] {
      assert a + c == c;
    } else {
      assert (a + c)[1..] == a[1..] + c;
      PreorderConcat(a[1..], c);
    }
  }

  lemma {:induction false} PreorderOne(tree: IncludeTree)
    ensures PreorderAll([tree]) == Preorder(tree)
  {
    assert [tree][1..] == [];
  }

  /** If a list of includes can be loaded, each of them can be, after those before it. */
  lemma {:induction false} EachLoadable(
      fs: FileSystem, targets: seq<Option<Path>>, i: nat, done: seq<IncludeTree>, visited: set<Path>)
    requires i < |targets| && TreesOf(fs, targets[..i], done)
    requires LoadableAll(fs, targets, visited)
    ensures Loadable(fs, targets[i], visited + Elems(PreorderAll(done)))
  {
    var trees :| TreesOf(fs, targets, trees) && Fresh(PreorderAll(trees), visited);
    assert TreesOf(fs, targets[..i], trees[..i]);
    TreesUnique(fs, targets[..i], done, trees[..i]);
    assert trees == done + ([trees[i]] + trees[i + 1..]);
    PreorderConcat(done, [trees[i]] + trees[i + 1..]);
    PreorderConcat([trees[i]], trees[i + 1..]);
    PreorderOne(trees[i]);
    FreshConcat(PreorderAll(done), Preorder(trees[i]) + PreorderAll(trees[i + 1..]), visited);
    FreshConcat(Preorder(trees[i]), PreorderAll(trees[i + 1..]), visited + Elems(PreorderAll(done)));
  }

  lemma {:induction false} Blocked(
      fs: FileSystem, targets: seq<Option<Path>>, i: nat, done: seq<IncludeTree>, visited: set<Path>)
    requires i < |targets| && TreesOf(fs, targets[..i], done)
    requires !Loadable(fs, targets[i], visited + Elems(PreorderAll(done)))
    ensures !LoadableAll(fs, targets, visited)
  {
    if LoadableAll(fs, targets, visited) { EachLoadable(fs, targets, i, done, visited); }
  }

  // ----- merging -----

  function Ids(specs: seq<WorkflowSpec>): set<string> { set s | s in specs :: s.id }

  function Unlisted(specs: seq<WorkflowSpec>, ids: set<string>): seq<WorkflowSpec> {
    if specs == [] then [] else (if specs[0].id in ids then [] else [specs[0]]) + Unlisted(specs[1..], ids)
  }

  /** Add the specs of one file whose ids were not there when the file was reached. */
  function MergeFile(specs: seq<WorkflowSpec>, more: seq<WorkflowSpec>): seq<WorkflowSpec> {
    specs + Unlisted(more, Ids(specs))
  }

  function Merge(fs: FileSystem, specs: seq<WorkflowSpec>, order: seq<Path>): seq<WorkflowSpec> {
    if order == [] then specs
    else MergeFile(Merge(fs, specs, order[..|order| - 1]), Specs(fs, order[|order| - 1]))
  }

  lemma {:induction false} MergeConcat(fs: FileSystem, specs: seq<WorkflowSpec>, a: seq<Path>, c: seq<Path>)
    ensures Merge(fs, specs, a + c) == Merge(fs, Merge(fs, specs, a), c)
    decreases |c|
  {
    if c == [] {
      assert a + c == a;
    } else {
      assert (a + c)[..|a + c| - 1] == a + c[..|c| - 1];
      MergeConcat(fs, specs, a, c[..|c| - 1]);
    }
  }

  /** What one more include adds to the files listed so far. */
  lemma {:induction false} NextInclude(
      fs: FileSystem, targets: seq<Option<Path>>, i: nat, done: seq<IncludeTree>, tree: IncludeTree,
      visited: set<Path>, specs: seq<WorkflowSpec>)
    requires i < |targets| && TreesOf(fs, targets[..i], done) && Fresh(PreorderAll(done), visited)
    requires TreeOf(fs, targets[i], tree) && Fresh(Preorder(tree), visited + Elems(PreorderAll(done)))
    ensures TreesOf(fs, targets[..i + 1], done + [tree]) && Fresh(PreorderAll(done + [tree]), visited)
    ensures Elems(PreorderAll(done + [tree])) == Elems(PreorderAll(done)) + Elems(Preorder(tree))
    ensures Merge(fs, specs, PreorderAll(done + [tree]))
         == Merge(fs, Merge(fs, specs, PreorderAll(done)), Preorder(tree))
  {
    OneMoreListed(done, tree);
    FreshConcat(PreorderAll(done), Preorder(tree), visited);
    MergeConcat(fs, specs, PreorderAll(done), Preorder(tree));
    OneMoreTree(fs, targets, i, done, tree);
  }

  lemma {:induction false} OneMoreListed(done: seq<IncludeTree>, tree: IncludeTree)
    ensures PreorderAll(done + [tree]) == PreorderAll(done) + Preorder(tree)
    ensures Elems(PreorderAll(done + [tree])) == Elems(PreorderAll(done)) + Elems(Preorder(tree))
  {
    PreorderConcat(done, [tree]);
    PreorderOne(tree);
  }

  lemma {:induction false} OneMoreTree(
      fs: FileSystem, targets: seq<Option<Path>>, i: nat, done: seq<IncludeTree>, tree: IncludeTree)
    requires i < |targets| && TreesOf(fs, targets[..i], done) && TreeOf(fs, targets[i], tree)
    ensures TreesOf(fs, targets[..i + 1], done + [tree])
  {
    assert targets[..i + 1] == targets[..i] + [targets[i]];
  }

  /** A file that cannot be used, or read, blocks its include. */
  lemma {:induction false} FileUsable(fs: FileSystem, path: Path, visited: set<Path>)
    ensures ResolveSpecs(Read(fs, path)).Ok? <==> path in fs && Usable(fs[path])
    ensures ResolveSpecs(Read(fs, path)).Err? ==> !Loadable(fs, Some(path), visited)
  {
    ResolveExactly(Read(fs, path));
  }

  // ----- the loader -----

  class Loader {
    const fs: FileSystem
    var specs: seq<WorkflowSpec>
    var visited: set<Path>

    constructor (fs: FileSystem, specs: seq<WorkflowSpec>, visited: set<Path>)
      ensures this.fs == fs && this.specs == specs && this.visited == visited
    {
      this.fs, this.specs, this.visited := fs, specs, visited;
    }

    ghost function Unvisited(): set<Path>
      reads this
    {
      fs.Keys - visited
    }

    /** Loading succeeds exactly when the include tree exists and lists no file twice and none visited before; it
        then merges the files in preorder. It terminates because unvisited files run out. */
    method LoadRecursive(target: Option<Path>) returns (r: Result<(), LoadError>, ghost tree: IncludeTree)
      modifies this
      ensures r.Ok? <==> Loadable(fs, target, old(visited))
      ensures r.Ok? ==> TreeOf(fs, target, tree) && Fresh(Preorder(tree), old(visited))
      ensures r.Ok? ==> visited == old(visited) + Elems(Preorder(tree))
      ensures r.Ok? ==> specs == Merge(fs, old(specs), Preorder(tree))
      decreases Unvisited(), 0
    {
      tree := Node("", []);
      if target.None? {
        return Err(NotFound), tree;
      }
      var path := target.value;
      if path in visited {
        HeadVisited(fs, path, visited);
        return Err(Circular(path)), tree;
      }
      visited := visited + {path};
      var content := Read(fs, path);
      var included := ResolveSpecs(content);
      FileUsable(fs, path, old(visited));
      if included.Err? {
        return Err(included.error), tree;
      }
      var existing := Ids(specs);
      specs := specs + Unlisted(included.value, existing);
      ghost var children;
      r, children := LoadAll(content.includes);
      RootOf(fs, path, old(visited));
      tree := Node(path, children);
      if r.Ok? {
        FreshConcat([path], PreorderAll(children), old(visited));
        MergeConcat(fs, old(specs), [path], PreorderAll(children));
        assert Merge(fs, old(specs), [path]) == MergeFile(Merge(fs, old(specs), []), Specs(fs, path));
        assert Elems([path]) == {path};
      }
    }

    /** The loop over the includes of a file. */
    method LoadAll(targets: seq<Option<Path>>) returns (r: Result<(), LoadError>, ghost trees: seq<IncludeTree>)
      modifies this
      ensures r.Ok? <==> LoadableAll(fs, targets, old(visited))
      ensures r.Ok? ==> TreesOf(fs, targets, trees) && Fresh(PreorderAll(trees), old(visited))
      ensures r.Ok? ==> visited == old(visited) + Elems(PreorderAll(trees))
      ensures r.Ok? ==> specs == Merge(fs, old(specs), PreorderAll(trees))
      decreases Unvisited(), 1
    {
      trees := [];
      for i := 0 to |targets|
        invariant TreesOf(fs, targets[..i], trees) && Fresh(PreorderAll(trees), old(visited))
        invariant visited == old(visited) + Elems(PreorderAll(trees))
        invariant specs == Merge(fs, old(specs), PreorderAll(trees))
      {
        ghost var tree;
        r, tree := LoadRecursive(targets[i]);
        if r.Err? {
          Blocked(fs, targets, i, trees, old(visited));
          return;
        }
        NextInclude(fs, targets, i, trees, tree, old(visited), old(specs));
        trees := trees + [tree];
      }
      assert targets[..|targets|] == targets;
      r := Ok(());
    }
  }

  lemma {:induction false} HeadVisited(fs: FileSystem, path: Path, visited: set<Path>)
    requires path in visited
    ensures !Loadable(fs, Some(path), visited)
  {
    forall tree | TreeOf(fs, Some(path), tree) ensures !Fresh(Preorder(tree), visited) {
      assert Preorder(tree)[0] == path;
    }
  }

  /** A file can be loaded exactly when it is usable and its includes can be, with the file itself visited. */
  lemma {:induction false} RootOf(fs: FileSystem, path: Path, visited: set<Path>)
    requires path !in visited && path in fs && Usable(fs[path])
    ensures Loadable(fs, Some(path), visited) <==> LoadableAll(fs, IncludesOf(fs, path), visited + {path})
  {
    var targets := IncludesOf(fs, path);
    assert Elems([path]) == {path};
    if Loadable(fs, Some(path), visited) {
      var tree :| TreeOf(fs, Some(path), tree) && Fresh(Preorder(tree), visited);
      FreshConcat([path], PreorderAll(tree.children), visited);
      assert TreesOf(fs, targets, tree.children);
    }
    if LoadableAll(fs, targets, visited + {path}) {
      var trees :| TreesOf(fs, targets, trees) && Fresh(PreorderAll(trees), visited + {path});
      FreshConcat([path], PreorderAll(trees), visited);
      assert Fresh([path], visited);
      assert TreeOf(fs, Some(path), Node(path, trees)) && Preorder(Node(path, trees)) == [path] + PreorderAll(trees);
    }
  }

  /** The whole load: the main file's specs first, then its includes, with the main file itself visited. It
      succeeds exactly when the main file is usable and no file is reached twice. */
  method LoadWithIncludes(fs: FileSystem, main: Content, base: Path)
    returns (r: Result<seq<WorkflowSpec>, LoadError>, ghost trees: seq<IncludeTree>)
    ensures r.Ok? <==> Usable(main) && LoadableAll(fs, main.includes, {base})
    ensures r.Ok? ==> TreesOf(fs, main.includes, trees) && NoDup([base] + PreorderAll(trees))
    ensures r.Ok? ==> r.value == Merge(fs, ResolveSpecs(main).value, PreorderAll(trees))
    ensures r.Ok? ==> forall x :: x in r.value <==> Defines(main, x) || FirstDefined(fs, main, PreorderAll(trees), x)
    ensures r.Ok? && main.includes == [] ==>
              r.value == if main.workflow.Some? then [main.workflow.value] else main.workflows.value
  {
    trees := [];
    ResolveExactly(main);
    var mainSpecs := ResolveSpecs(main);
    if mainSpecs.Err? {
      return Err(mainSpecs.error), [];
    }
    var loader := new Loader(fs, mainSpecs.value, {base});
    var loaded;
    loaded, trees := loader.LoadAll(main.includes);
    if loaded.Err? {
      return Err(loaded.error), [];
    }
    forall x ensures x in loader.specs <==> Defines(main, x) || FirstDefined(fs, main, PreorderAll(trees), x) {
      ResultExactly(fs, main, mainSpecs.value, PreorderAll(trees), x);
    }
    return Ok(loader.specs), trees;
  }

  /** An included file of the list is the first to define the id, and the main file does not define it. */
  ghost predicate FirstDefined(fs: FileSystem, main: Content, order: seq<Path>, x: WorkflowSpec) {
    exists i :: 0 <= i < |order| && IsFirstDefinition(fs, main, order, i, x)
  }

  ghost predicate IsFirstDefinition(fs: FileSystem, main: Content, order: seq<Path>, i: nat, x: WorkflowSpec)
    requires i < |order|
  {
    && order[i] in fs && Defines(fs[order[i]], x)
    && (forall y :: Defines(main, y) ==> y.id != x.id)
    && forall j, y :: 0 <= j < i && order[j] in fs && Defines(fs[order[j]], y) ==> y.id != x.id
  }

  lemma {:induction false} SpecsExactly(fs: FileSystem, p: Path, x: WorkflowSpec)
    ensures x in Specs(fs, p) <==> p in fs && Defines(fs[p], x)
  {
    ResolveExactly(Read(fs, p));
  }

  lemma {:induction false} FirstMeans(
      fs: FileSystem, main: Content, specs: seq<WorkflowSpec>, order: seq<Path>, i: nat, x: WorkflowSpec)
    requires i < |order| && forall y :: y in specs <==> Defines(main, y)
    ensures FirstAt(fs, specs, order, i, x) <==> IsFirstDefinition(fs, main, order, i, x)
  {
    SpecsExactly(fs, order[i], x);
    forall j, y | 0 <= j < i ensures y in Specs(fs, order[j]) <==> order[j] in fs && Defines(fs[order[j]], y) {
      SpecsExactly(fs, order[j], y);
    }
  }

  lemma {:induction false} ResultExactly(
      fs: FileSystem, main: Content, specs: seq<WorkflowSpec>, order: seq<Path>, x: WorkflowSpec)
    requires forall y :: y in specs <==> Defines(main, y)
    ensures x in Merge(fs, specs, order) <==> Defines(main, x) || FirstDefined(fs, main, order, x)
  {
    MergedExactly(fs, specs, order, x);
    forall i | 0 <= i < |order|
      ensures FirstAt(fs, specs, order, i, x) <==> IsFirstDefinition(fs, main, order, i, x)
    {
      FirstMeans(fs, main, specs, order, i, x);
    }
  }

  // ----- precedence -----

  lemma {:induction false} UnlistedExactly(specs: seq<WorkflowSpec>, ids: set<string>, x: WorkflowSpec)
    ensures x in Unlisted(specs, ids) <==> x in specs && x.id !in ids
  {
    if specs != [] { UnlistedExactly(specs[1..], ids, x); }
  }

  /** `x` is defined by the i-th file and its id by no earlier one, nor by the main file. */
  ghost predicate FirstAt(fs: FileSystem, main: seq<WorkflowSpec>, order: seq<Path>, i: nat, x: WorkflowSpec)
    requires i < |order|
  {
    && x in Specs(fs, order[i]) && x.id !in Ids(main)
    && forall j :: 0 <= j < i ==> x.id !in Ids(Specs(fs, order[j]))
  }

  ghost predicate DefinedIn(fs: FileSystem, order: seq<Path>, id: string) {
    exists j :: 0 <= j < |order| && id in Ids(Specs(fs, order[j]))
  }

  lemma {:induction false} DefinedInLast(fs: FileSystem, order: seq<Path>, id: string)
    requires order != []
    ensures DefinedIn(fs, order, id)
       <==> DefinedIn(fs, order[..|order| - 1], id) || id in Ids(Specs(fs, order[|order| - 1]))
  {
    var init := order[..|order| - 1];
    assert forall j :: 0 <= j < |init| ==> init[j] == order[j];
  }

  /** Exactly the ids defined in the main file or in some included file end up in the result. */
  lemma {:induction false} MergedIds(fs: FileSystem, main: seq<WorkflowSpec>, order: seq<Path>, id: string)
    ensures id in Ids(Merge(fs, main, order)) <==> id in Ids(main) || DefinedIn(fs, order, id)
    decreases |order|
  {
    if order != [] {
      var init := order[..|order| - 1];
      MergedIds(fs, main, init, id);
      MergeFileIds(Merge(fs, main, init), Specs(fs, order[|order| - 1]), id);
      DefinedInLast(fs, order, id);
    }
  }

  lemma {:induction false} MergeFileIds(specs: seq<WorkflowSpec>, more: seq<WorkflowSpec>, id: string)
    ensures id in Ids(MergeFile(specs, more)) <==> id in Ids(specs) || id in Ids(more)
  {
    forall x ensures x in MergeFile(specs, more) <==> x in specs || (x in more && x.id !in Ids(specs)) {
      UnlistedExactly(more, Ids(specs), x);
    }
  }

  /** Some included file is the first to define x.id, and defines it as x. */
  ghost predicate FirstSomewhere(fs: FileSystem, main: seq<WorkflowSpec>, order: seq<Path>, x: WorkflowSpec) {
    exists i :: 0 <= i < |order| && FirstAt(fs, main, order, i, x)
  }

  /** Precedence: a spec is in the result exactly when the main file defines it, or its file is the first in
      preorder to define its id and the main file does not. */
  lemma {:induction false} MergedExactly(fs: FileSystem, main: seq<WorkflowSpec>, order: seq<Path>, x: WorkflowSpec)
    ensures x in Merge(fs, main, order) <==> x in main || FirstSomewhere(fs, main, order, x)
    decreases |order|
  {
    if order != [] {
      MergedExactly(fs, main, order[..|order| - 1], x);
      MergedLast(fs, main, order, x);
      FirstAtLast(fs, main, order, x);
    }
  }

  lemma {:induction false} MergedLast(fs: FileSystem, main: seq<WorkflowSpec>, order: seq<Path>, x: WorkflowSpec)
    requires order != []
    ensures x in Merge(fs, main, order)
       <==> x in Merge(fs, main, order[..|order| - 1]) || FirstAt(fs, main, order, |order| - 1, x)
  {
    var n := |order| - 1;
    var before := Merge(fs, main, order[..n]);
    UnlistedExactly(Specs(fs, order[n]), Ids(before), x);
    MergedIds(fs, main, order[..n], x.id);
    assert forall j :: 0 <= j < n ==> order[..n][j] == order[j];
  }

  lemma {:induction false} FirstAtLast(fs: FileSystem, main: seq<WorkflowSpec>, order: seq<Path>, x: WorkflowSpec)
    requires order != []
    ensures FirstSomewhere(fs, main, order, x)
       <==> FirstSomewhere(fs, main, order[..|order| - 1], x) || FirstAt(fs, main, order, |order| - 1, x)
  {
    var init := order[..|order| - 1];
    assert forall i :: 0 <= i < |init| ==> init[i] == order[i];
    if i :| 0 <= i < |order| && FirstAt(fs, main, order, i, x) {
      if i < |init| { assert FirstAt(fs, main, init, i, x); }
    }
    if i :| 0 <= i < |init| && FirstAt(fs, main, init, i, x) {
      assert FirstAt(fs, main, order, i, x);
    }
  }

  /** An including file wins over what it includes: its specs come first wherever its tree does. */
  lemma {:induction false} IncluderWins(fs: FileSystem, main: Content, tree: IncludeTree, x: WorkflowSpec)
    requires tree.path in fs && Defines(fs[tree.path], x) && forall y :: Defines(main, y) ==> y.id != x.id
    ensures FirstDefined(fs, main, Preorder(tree), x)
  {
    assert IsFirstDefinition(fs, main, Preorder(tree), 0, x);
  }

  /** An earlier include wins over a later one: what the first trees define stays, whatever trees follow. */
  lemma {:induction false} EarlierIncludeWins(
      fs: FileSystem, main: Content, trees: seq<IncludeTree>, more: seq<IncludeTree>, x: WorkflowSpec)
    requires FirstDefined(fs, main, PreorderAll(trees), x)
    ensures FirstDefined(fs, main, PreorderAll(trees + more), x)
  {
    PreorderConcat(trees, more);
    var order, all := PreorderAll(trees), PreorderAll(trees + more);
    var i :| 0 <= i < |order| && IsFirstDefinition(fs, main, order, i, x);
    assert forall j :: 0 <= j <= i ==> all[j] == order[j];
    assert IsFirstDefinition(fs, main, all, i, x);
  }

  // ----- diamonds -----

  /** Two of these trees reach the same file. */
  ghost predicate Shares(trees: seq<IncludeTree>) {
    exists i, j, p :: 0 <= i < j < |trees| && p in Preorder(trees[i]) && p in Preorder(trees[j])
  }

  /** Somewhere, two includes of one file reach the same file. */
  ghost predicate HasDiamond(trees: seq<IncludeTree>)
    decreases trees
  {
    Shares(trees) || exists i :: 0 <= i < |trees| && HasDiamond(trees[i].children)
  }

  lemma {:induction false} OneOfTrees(trees: seq<IncludeTree>, i: nat)
    requires i < |trees|
    ensures PreorderAll(trees) == PreorderAll(trees[..i]) + Preorder(trees[i]) + PreorderAll(trees[i + 1..])
  {
    assert trees == (trees[..i] + [trees[i]]) + trees[i + 1..];
    PreorderConcat(trees[..i] + [trees[i]], trees[i + 1..]);
    PreorderConcat(trees[..i], [trees[i]]);
    PreorderOne(trees[i]);
  }

  lemma {:induction false} InOneTree(trees: seq<IncludeTree>, p: Path)
    ensures p in PreorderAll(trees) <==> exists i :: 0 <= i < |trees| && p in Preorder(trees[i])
    decreases |trees|
  {
    if trees != [] {
      InOneTree(trees[1..], p);
      if i :| 0 <= i < |trees[1..]| && p in Preorder(trees[1..][i]) { assert p in Preorder(trees[i + 1]); }
      if i :| 0 <= i < |trees| && p in Preorder(trees[i]) { assert i > 0 ==> p in Preorder(trees[1..][i - 1]); }
    }
  }

  /** A diamond makes the loader meet a file twice. */
  lemma {:induction false} DiamondRepeats(trees: seq<IncludeTree>)
    requires HasDiamond(trees)
    ensures !NoDup(PreorderAll(trees))
    decreases trees
  {
    if Shares(trees) {
      var i, j, p :| 0 <= i < j < |trees| && p in Preorder(trees[i]) && p in Preorder(trees[j]);
      OneOfTrees(trees, i);
      assert trees[i + 1..][j - i - 1] == trees[j];
      InOneTree(trees[i + 1..], p);
      NoDupConcat(PreorderAll(trees[..i]) + Preorder(trees[i]), PreorderAll(trees[i + 1..]));
    } else {
      var i :| 0 <= i < |trees| && HasDiamond(trees[i].children);
      DiamondRepeats(trees[i].children);
      OneOfTrees(trees, i);
      NoDupConcat(PreorderAll(trees[..i]) + Preorder(trees[i]), PreorderAll(trees[i + 1..]));
      NoDupConcat(PreorderAll(trees[..i]), Preorder(trees[i]));
      NoDupConcat([trees[i].path], PreorderAll(trees[i].children));
    }
  }

  /** A file met below is the root of an include tree of its own, no longer than the whole. */
  lemma {:induction false} FindBelow(
      fs: FileSystem, targets: seq<Option<Path>>, trees: seq<IncludeTree>, p: Path) returns (sub: IncludeTree)
    requires TreesOf(fs, targets, trees) && p in PreorderAll(trees)
    ensures TreeOf(fs, Some(p), sub) && |Preorder(sub)| <= |PreorderAll(trees)|
    decreases trees
  {
    InOneTree(trees, p);
    var i :| 0 <= i < |trees| && p in Preorder(trees[i]);
    OneOfTrees(trees, i);
    if p == trees[i].path {
      sub := trees[i];
    } else {
      sub := FindBelow(fs, IncludesOf(fs, trees[i].path), trees[i].children, p);
    }
  }

  /** A file with an include tree is not below itself: a real circle has no tree. */
  lemma {:induction false} NotBelowItself(fs: FileSystem, tree: IncludeTree)
    requires TreeOf(fs, Some(tree.path), tree)
    ensures tree.path !in PreorderAll(tree.children)
  {
    if tree.path in PreorderAll(tree.children) {
      var sub := FindBelow(fs, IncludesOf(fs, tree.path), tree.children, tree.path);
      TreeUnique(fs, Some(tree.path), tree, sub);
    }
  }

  /** A file met twice, in files that all have a tree, is a diamond. */
  lemma {:induction false} RepeatIsDiamond(fs: FileSystem, targets: seq<Option<Path>>, trees: seq<IncludeTree>)
    requires TreesOf(fs, targets, trees) && !NoDup(PreorderAll(trees))
    ensures HasDiamond(trees)
    decreases trees
  {
    var first, rest := trees[0], trees[1..];
    NoDupConcat(Preorder(first), PreorderAll(rest));
    if !NoDup(Preorder(first)) {
      NotBelowItself(fs, first);
      NoDupConcat([first.path], PreorderAll(first.children));
      RepeatIsDiamond(fs, IncludesOf(fs, first.path), first.children);
    } else if !NoDup(PreorderAll(rest)) {
      RepeatIsDiamond(fs, targets[1..], rest);
      DiamondInRest(trees);
    } else {
      var p :| p in Preorder(first) && p in PreorderAll(rest);
      InOneTree(rest, p);
      var j :| 0 <= j < |rest| && p in Preorder(rest[j]);
      assert p in Preorder(trees[0]) && p in Preorder(trees[j + 1]);
    }
  }

  lemma {:induction false} DiamondInRest(trees: seq<IncludeTree>)
    requires trees != [] && HasDiamond(trees[1..])
    ensures HasDiamond(trees)
  {
    var rest := trees[1..];
    if Shares(rest) {
      var i, j, p :| 0 <= i < j < |rest| && p in Preorder(rest[i]) && p in Preorder(rest[j]);
      assert p in Preorder(trees[i + 1]) && p in Preorder(trees[j + 1]);
    } else {
      var i :| 0 <= i < |rest| && HasDiamond(rest[i].children);
      assert HasDiamond(trees[i + 1].children);
    }
  }

  /** When every include resolves to a usable file and nothing is circular, so that the include trees exist, loading
      is refused exactly when two includes of one file, at any depth, reach the same file, or a file visited before
      is reached again. */
  lemma {:induction false} DiamondIsRejected(
      fs: FileSystem, targets: seq<Option<Path>>, trees: seq<IncludeTree>, visited: set<Path>)
    requires TreesOf(fs, targets, trees)
    ensures !LoadableAll(fs, targets, visited) <==> HasDiamond(trees) || !Avoids(PreorderAll(trees), visited)
  {
    forall other | TreesOf(fs, targets, other) ensures other == trees {
      TreesUnique(fs, targets, trees, other);
    }
    assert LoadableAll(fs, targets, visited) <==> Fresh(PreorderAll(trees), visited);
    if HasDiamond(trees) {
      DiamondRepeats(trees);
    } else if !NoDup(PreorderAll(trees)) {
      RepeatIsDiamond(fs, targets, trees);
    }
  }
}
