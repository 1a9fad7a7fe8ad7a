/** Detection of circular sub-workflow references (wfe-yaml/src/validation.rs): a three-colour
    depth-first search, proved to answer exactly whether the reference graph has a cycle. */
module CycleDetection {
  import opened Prelude

  datatype Color = White | Gray | Black

  type Graph = map<string, set<string>>

  /** A reference from one known workflow to another; references to unknown ids do not count. */
  predicate Edge(known: set<string>, deps: Graph, a: string, b: string) {
    a in known && b in known && a in deps && b in deps[a]
  }

  ghost predicate IsPath(known: set<string>, deps: Graph, p: seq<string>) {
    forall i :: 0 <= i < |p| - 1 ==> Edge(known, deps, p[i], p[i + 1])
  }

  ghost predicate IsCycle(known: set<string>, deps: Graph, c: seq<string>) {
    c != [] && IsPath(known, deps, c) && Edge(known, deps, c[|c| - 1], c[0])
  }

  ghost predicate HasCycle(known: set<string>, deps: Graph) {
    exists c :: IsCycle(known, deps, c)
  }

  /** Nodes listed so that every node comes after all it refers to. */
  ghost predicate Settled(known: set<string>, deps: Graph, order: seq<string>) {
    NoDup(order) && forall i, b :: 0 <= i < |order| && Edge(known, deps, order[i], b) ==> b in order[..i]
  }

  /** Position of `x`; the search result that the source unwraps. */
  function Position(s: seq<string>, x: string): (k: nat)
    requires x in s
    ensures k < |s| && s[k] == x
  {
    if s[0] == x then 0 else 1 + Position(s[1..], x)
  }

  class Search {
    const known: set<string>
    const deps: Graph
    var colors: map<string, Color>
    var path: seq<string>
    /** The black nodes, in the order in which they were finished. */
    ghost var finished: seq<string>

    constructor (known: set<string>, deps: Graph)
      ensures this.known == known && this.deps == deps
      ensures Valid() && path == [] && finished == []
    {
      this.known, this.deps := known, deps;
      colors := map n | n in known :: White;
      path := [];
      finished := [];
    }

    ghost function Whites(): set<string>
      reads this
    {
      set n | n in colors && colors[n] == White
    }

    /** The path holds exactly the gray nodes, each once, and follows references; the black nodes are
        settled among themselves. */
    ghost predicate Valid()
      reads this
    {
      && colors.Keys == known
      && (forall n :: n in known ==> (colors[n] == Gray <==> n in path))
      && (forall n :: n in path ==> n in known)
      && NoDup(path) && IsPath(known, deps, path)
      && (forall n :: n in known ==> (colors[n] == Black <==> n in finished))
      && (forall n :: n in finished ==> n in known)
      && Settled(known, deps, finished)
    }

    /** Finishing one node leaves the path as it was and the node black, or reports a cycle. */
    method Dfs(node: string) returns (r: Result<(), seq<string>>)
      requires Valid() && node in known && colors[node] == White
      requires path != [] ==> Edge(known, deps, path[|path| - 1], node)
      modifies this
      ensures r.Err? ==> IsCycle(known, deps, r.error)
      ensures r.Ok? ==> Valid() && path == old(path) && node in finished
      ensures r.Ok? ==> Whites() < old(Whites()) && old(finished) <= finished
      decreases Whites(), 1
    {
      ghost var before := Whites();
      Enter(node);
      if node in deps {
        var todo := deps[node];
        while todo != {}
          invariant Valid() && path == old(path) + [node] && todo <= deps[node]
          invariant Whites() < before && old(finished) <= finished
          invariant forall b :: b in deps[node] - todo && b in known ==> b in finished
          decreases todo
        {
          var neighbor :| neighbor in todo;
          todo := todo - {neighbor};
          var inner := Visit(neighbor);
          if inner.Err? {
            return inner;
          }
        }
      }
      Leave(node);
      return Ok(());
    }

    /** One neighbour of the node at the end of the path: gray closes a cycle, white is searched,
        black and unknown are skipped. */
    method Visit(neighbor: string) returns (r: Result<(), seq<string>>)
      requires Valid() && path != [] && path[|path| - 1] in deps && neighbor in deps[path[|path| - 1]]
      modifies this
      ensures r.Err? ==> IsCycle(known, deps, r.error)
      ensures r.Ok? ==> Valid() && path == old(path) && (neighbor in known ==> neighbor in finished)
      ensures r.Ok? ==> Whites() <= old(Whites()) && old(finished) <= finished
      decreases Whites(), 2
    {
      assert path[|path| - 1] in path;
      if neighbor in colors && colors[neighbor] == Gray {
        var start := Position(path, neighbor);
        CloseCycle(path, start);
        return Err(path[start..]);
      } else if neighbor !in colors || colors[neighbor] == White {
        if neighbor in colors {
          r := Dfs(neighbor);
          return;
        }
      }
      return Ok(());
    }

    lemma CloseCycle(p: seq<string>, start: nat)
      requires start < |p| && IsPath(known, deps, p) && Edge(known, deps, p[|p| - 1], p[start])
      ensures IsCycle(known, deps, p[start..])
    {
      var c := p[start..];
      forall i | 0 <= i < |c| - 1 ensures Edge(known, deps, c[i], c[i + 1]) {
        assert Edge(known, deps, p[start + i], p[start + i + 1]);
      }
    }

    /** Colour a node gray and push it. */
    method Enter(node: string)
      requires Valid() && node in known && colors[node] == White
      requires path != [] ==> Edge(known, deps, path[|path| - 1], node)
      modifies this
      ensures Valid() && path == old(path) + [node] && finished == old(finished)
      ensures Whites() == old(Whites()) - {node}
    {
      assert node in Whites();
      colors := colors[node := Gray];
      path := path + [node];
    }

    /** Pop a node all of whose neighbours are finished, and colour it black. */
    method Leave(node: string)
      requires Valid() && path != [] && path[|path| - 1] == node
      requires forall b :: Edge(known, deps, node, b) ==> b in finished
      modifies this
      ensures Valid() && path == old(path)[..|old(path)| - 1] && finished == old(finished) + [node]
      ensures Whites() == old(Whites())
    {
      ghost var was := finished;
      path := path[..|path| - 1];
      colors := colors[node := Black];
      finished := finished + [node];
      forall i, b | 0 <= i < |finished| && Edge(known, deps, finished[i], b) ensures b in finished[..i] {
        assert i < |was| ==> finished[..i] == was[..i];
        assert i == |was| ==> finished[..i] == was;
      }
    }

    /** The outer loop: start a search at every node that is still white. */
    method Detect() returns (r: Result<(), seq<string>>)
      requires Valid() && path == []
      modifies this
      ensures r.Err? ==> IsCycle(known, deps, r.error)
      ensures r.Ok? ==> Settled(known, deps, finished) && Elems(finished) == known
    {
      var nodes := known;
      while nodes != {}
        invariant Valid() && path == [] && nodes <= known
        invariant forall n :: n in known - nodes ==> n in finished
        decreases nodes
      {
        var node :| node in nodes;
        nodes := nodes - {node};
        if colors[node] == White {
          var inner := Dfs(node);
          if inner.Err? {
            return Err(inner.error);
          }
        }
      }
      return Ok(());
    }
  }

  /** In a settled order, each further node of a path stands at least one place earlier. */
  lemma {:induction false} PathDescends(known: set<string>, deps: Graph, order: seq<string>, p: seq<string>, a: nat)
    requires Settled(known, deps, order) && IsPath(known, deps, p) && p != []
    requires a < |order| && order[a] == p[0]
    ensures exists b :: 0 <= b < |order| && order[b] == p[|p| - 1] && b + |p| - 1 <= a
  {
    if |p| == 1 {
      assert a + |p| - 1 <= a;
    } else {
      assert Edge(known, deps, p[0], p[1]);
      assert p[1] in order[..a];
      var c :| 0 <= c < a && order[..a][c] == p[1];
      assert IsPath(known, deps, p[1..]) by {
        forall i | 0 <= i < |p[1..]| - 1 ensures Edge(known, deps, p[1..][i], p[1..][i + 1]) {
          assert Edge(known, deps, p[i + 1], p[i + 2]);
        }
      }
      PathDescends(known, deps, order, p[1..], c);
    }
  }

  /** A graph whose known nodes are all settled has no cycle. */
  lemma {:induction false} SettledIsAcyclic(known: set<string>, deps: Graph, order: seq<string>)
    requires Settled(known, deps, order) && Elems(order) == known
    ensures !HasCycle(known, deps)
  {
    forall c | IsCycle(known, deps, c) ensures false {
      assert c[0] in Elems(order);
      var a :| 0 <= a < |order| && order[a] == c[0];
      PathDescends(known, deps, order, c, a);
    }
  }

  /** Exactness: success if and only if there is no cycle among the known ids; a reported path is a real cycle. */
  method DetectCycles(known: set<string>, deps: Graph) returns (r: Result<(), seq<string>>)
    ensures r.Ok? <==> !HasCycle(known, deps)
    ensures r.Err? ==> IsCycle(known, deps, r.error)
  {
    var search := new Search(known, deps);
    r := search.Detect();
    if r.Ok? { SettledIsAcyclic(known, deps, search.finished); }
  }

  /** A path that meets a node twice goes round a cycle. */
  lemma {:induction false} RepeatClosesCycle(known: set<string>, deps: Graph, p: seq<string>, i: nat, j: nat)
    requires IsPath(known, deps, p) && i < j < |p| && p[i] == p[j]
    ensures HasCycle(known, deps)
  {
    var c := p[i..j];
    forall k | 0 <= k < |c| - 1 ensures Edge(known, deps, c[k], c[k + 1]) {
      assert Edge(known, deps, p[i + k], p[i + k + 1]);
    }
    assert Edge(known, deps, p[j - 1], p[j]);
    assert IsCycle(known, deps, c);
  }

  /** Without cycles, no chain of references is longer than the number of known ids. */
  lemma {:induction false} ChainsAreShort(known: set<string>, deps: Graph, p: seq<string>)
    requires !HasCycle(known, deps) && IsPath(known, deps, p) && p != [] && p[0] in known
    ensures |p| <= |known|
  {
    forall i, j | 0 <= i < j < |p| ensures p[i] != p[j] {
      if p[i] == p[j] { RepeatClosesCycle(known, deps, p, i, j); }
    }
    forall i | 0 <= i < |p| ensures p[i] in known {
      if i > 0 { assert Edge(known, deps, p[i - 1], p[i]); }
    }
    NoDupSize(p);
    SubsetSize(Elems(p), known);
  }
}
