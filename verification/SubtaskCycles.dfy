/**
 Setting the dependencies of a subtask (src/handlers/manage/pro/subtask.py): `have_cycle` is a
 three-colour depth-first search, and a configuration is saved only when it finds no cycle.
 */
module SubtaskCycles {
  import opened Collections
  import opened Wrappers
  import opened Subtasks

  type Relation = map<int, set<int>>

  // ---------------------------------------------------------------- cycles and orders

  /** An id without an entry, such as an unknown dependency, has no successors. */
  ghost predicate Edge(g: Relation, u: int, v: int) { u in g && v in g[u] }

  ghost predicate IsPath(g: Relation, p: seq<int>) {
    forall i :: 0 <= i < |p| - 1 ==> Edge(g, p[i], p[i + 1])
  }

  ghost predicate IsCycle(g: Relation, p: seq<int>) {
    |p| >= 2 && IsPath(g, p) && p[0] == p[|p| - 1]
  }

  ghost predicate HasCycle(g: Relation) {
    exists p :: IsCycle(g, p)
  }

  /** Everything a listed id depends on is listed before it. */
  ghost predicate DependenciesFirst(g: Relation, order: seq<int>) {
    && Distinct(order)
    && forall i, v :: 0 <= i < |order| && Edge(g, order[i], v) ==> v in order[..i]
  }

  ghost predicate TopologicalOrder(g: Relation, order: seq<int>) {
    DependenciesFirst(g, order) && forall u :: u in g ==> u in order
  }

  /** Along a path the positions in an order only fall. */
  lemma {:induction false} PathDescends(g: Relation, order: seq<int>, p: seq<int>, start: nat, k: nat) returns (position: nat)
    requires DependenciesFirst(g, order) && IsPath(g, p) && k < |p|
    requires start < |order| && p[0] == order[start]
    ensures position < |order| && order[position] == p[k] && position + k <= start
  {
    if k == 0 {
      position := start;
    } else {
      var before := PathDescends(g, order, p, start, k - 1);
      assert Edge(g, p[k - 1], p[k - 1 + 1]);
      position :| 0 <= position < before && order[position] == p[k];
    }
  }

  /** A topological order leaves no room for a cycle. */
  lemma OrderExcludesCycle(g: Relation, order: seq<int>)
    requires TopologicalOrder(g, order)
    ensures !HasCycle(g)
  {
    forall p | |p| >= 2 && IsPath(g, p)
      ensures p[0] != p[|p| - 1]
    {
      assert Edge(g, p[0], p[0 + 1]);
      var start :| 0 <= start < |order| && order[start] == p[0];
      var end := PathDescends(g, order, p, start, |p| - 1);
      assert end < start;
    }
  }

  // ---------------------------------------------------------------- the depth-first search

  /** The variables of have_cycle that its inner function dfs shares: `vis` and `graph`. */
  class CycleSearch {
    var vis: map<int, int>
    const graph: map<int, seq<int>>

    /** What the adjacency lists stand for, the ids in play, and the ids in the order they finished. */
    ghost const relation: Relation
    ghost const universe: set<int>
    ghost var finished: seq<int>

    ghost predicate Lists()
    {
      && (forall u :: u in relation ==> u in universe && relation[u] <= universe)
      && (forall u, v :: Edge(relation, u, v) <==> v in Listed(graph, u))
    }

    /** defaultdict(int) */
    function Colour(v: int): int
      reads this
    {
      if v in vis then vis[v] else 0
    }

    ghost predicate Valid()
      reads this
    {
      && Lists()
      && (forall v :: v in vis ==> 0 <= vis[v] <= 2)
      && (forall v :: Colour(v) == 2 <==> v in finished)
      && DependenciesFirst(relation, finished)
    }

    ghost function White(): set<int>
      reads this
    {
      set v | v in universe && Colour(v) == 0
    }

    constructor (graph: map<int, seq<int>>, ghost relation: Relation, ghost universe: set<int>)
      requires forall u :: u in relation ==> u in universe && relation[u] <= universe
      requires forall u, v :: Edge(relation, u, v) <==> v in Listed(graph, u)
      ensures Valid() && vis == map[] && finished == []
      ensures this.relation == relation && this.universe == universe && this.graph == graph
    {
      this.graph := graph;
      this.relation := relation;
      this.universe := universe;
      vis := map[];
      finished := [];
    }

    /**
     dfs: `path` is the chain of calls in progress, which are exactly the grey ids. Success leaves
     the grey ids as they were and finishes u; failure has met a grey id, which closes a cycle.
     */
    method Dfs(u: int, ghost path: seq<int>) returns (ok: bool)
      requires Valid() && u in universe && Colour(u) == 0
      requires forall v :: Colour(v) == 1 <==> v in path
      requires IsPath(relation, path + [u])
      modifies this
      ensures Valid()
      ensures ok ==> Colour(u) == 2 && old(finished) <= finished
      ensures ok ==> forall v :: Colour(v) == 1 <==> v in path
      ensures ok ==> White() <= old(White())
      ensures !ok ==> HasCycle(relation)
      decreases White()
    {
      hide DependenciesFirst, HasCycle, IsPath;
      vis := vis[u := 1];
      ghost var here := path + [u];
      var successors := Listed(graph, u);
      for i := 0 to |successors|
        invariant Valid() && old(finished) <= finished
        invariant forall v :: Colour(v) == 1 <==> v in here
        invariant White() <= old(White()) - {u}
        invariant forall k :: 0 <= k < i ==> successors[k] in finished
      {
        var v := successors[i];
        assert Edge(relation, u, v);
        ExtendPath(relation, here, v);
        if Colour(v) == 1 {
          CloseCycle(relation, here, v);
          return false;
        } else if Colour(v) == 0 {
          ghost var before := finished;
          ok := Dfs(v, here);
          if !ok {
            return false;
          }
        }
      }
      vis := vis[u := 2];
      FinishNode(relation, finished, u);
      finished := finished + [u];
      return true;
    }
  }

  lemma ExtendPath(g: Relation, path: seq<int>, v: int)
    requires path != [] && IsPath(g, path) && Edge(g, path[|path| - 1], v)
    ensures IsPath(g, path + [v])
  {
  }

  /** An edge back into the path of grey ids closes a cycle. */
  lemma CloseCycle(g: Relation, path: seq<int>, v: int)
    requires path != [] && IsPath(g, path + [v]) && v in path
    ensures HasCycle(g)
  {
    var k :| 0 <= k < |path| && path[k] == v;
    var p := (path + [v])[k..];
    forall i | 0 <= i < |p| - 1
      ensures Edge(g, p[i], p[i + 1])
    {
      assert p[i] == (path + [v])[k + i] && p[i + 1] == (path + [v])[k + i + 1];
    }
    assert IsCycle(g, p);
  }

  lemma FinishNode(g: Relation, finished: seq<int>, u: int)
    requires DependenciesFirst(g, finished) && u !in finished
    requires forall v :: Edge(g, u, v) ==> v in finished
    ensures DependenciesFirst(g, finished + [u])
  {
    var order := finished + [u];
    forall i, v | 0 <= i < |order| && Edge(g, order[i], v)
      ensures v in order[..i]
    {
      if i < |finished| {
        assert v in finished[..i];
        assert order[..i] == finished[..i];
      } else {
        assert order[..i] == finished;
      }
    }
  }

  /** have_cycle, with a topological order as the reason for a negative answer. */
  method HaveCycle(configs: Configs) returns (r: bool, ghost order: seq<int>)
    requires DistinctKeys(configs)
    ensures r == HasCycle(DepMap(configs)) == Circular(configs)
    ensures !r ==> TopologicalOrder(DepMap(configs), order)
  {
    hide DepMap, HasCycle, DistinctKeys, Circular;
    CyclesAreCircular(configs);
    ghost var relation := DepMap(configs);
    ghost var universe := Keys(configs) + set u, v | u in relation && v in relation[u] :: v;
    forall u | u in relation
      ensures u in universe && relation[u] <= universe
    {
      forall v | v in relation[u]
        ensures v in universe
      {
      }
    }
    var graph := BuildGraph(configs);
    var search := new CycleSearch(graph, relation, universe);
    for i := 0 to |configs|
      invariant search.Valid() && search.relation == relation && search.universe == universe
      invariant forall v :: search.Colour(v) != 1
      invariant forall k :: 0 <= k < i ==> configs[k].0 in search.finished
    {
      assert configs[i] in configs;
      if search.Colour(configs[i].0) == 0 {
        var ok := search.Dfs(configs[i].0, []);
        if !ok {
          return true, [];
        }
      }
    }
    order := search.finished;
    OrderExcludesCycle(relation, order);
    return false, order;
  }

  /** defaultdict(list) */
  function Listed(graph: map<int, seq<int>>, u: int): seq<int> {
    if u in graph then graph[u] else []
  }

  /** The adjacency lists. */
  method BuildGraph(configs: Configs) returns (graph: map<int, seq<int>>)
    requires DistinctKeys(configs)
    ensures forall u, v :: Edge(DepMap(configs), u, v) <==> v in Listed(graph, u)
  {
    graph := map[];
    for i := 0 to |configs|
      invariant forall u, v :: Edge(DepMap(configs[..i]), u, v) <==> v in Listed(graph, u)
    {
      var (u, config) := configs[i];
      assert configs[..i + 1][..i] == configs[..i];
      assert configs[..i + 1] == configs[..i] + [configs[i]];
      assert u !in Keys(configs[..i]);
      graph := AppendEdges(graph, u, config.deps);
    }
    assert configs[..|configs|] == configs;
  }

  /** The inner loop of the graph construction; a set is walked in some order. */
  method AppendEdges(before: map<int, seq<int>>, u: int, deps: set<int>) returns (graph: map<int, seq<int>>)
    requires forall v :: v !in Listed(before, u)
    ensures forall x :: x != u ==> Listed(graph, x) == Listed(before, x)
    ensures forall v :: v in Listed(graph, u) <==> v in deps
  {
    graph := before;
    var rest := deps;
    while rest != {}
      invariant rest <= deps
      invariant forall x :: x != u ==> Listed(graph, x) == Listed(before, x)
      invariant forall v :: v in Listed(graph, u) <==> v in deps - rest
    {
      ghost var some := SomeElement(rest);
      var v :| v in rest;
      graph := graph[u := Listed(graph, u) + [v]];
      rest := rest - {v};
    }
  }

  // ---------------------------------------------------------------- the action

  datatype ActionError = SubtaskNotFound | DependencyNotFound | CyclicDependencies

  /** `configs` with the dependencies of one subtask exchanged. */
  function WithDeps(configs: Configs, id: int, deps: set<int>): (r: Configs)
    ensures |r| == |configs|
    ensures forall i :: 0 <= i < |configs| ==> r[i].0 == configs[i].0
    ensures forall i :: 0 <= i < |configs| ==> r[i].1 == if configs[i].0 == id then configs[i].1.(deps := deps) else configs[i].1
  {
    seq(|configs|, i requires 0 <= i < |configs| =>
      if configs[i].0 == id then (id, configs[i].1.(deps := deps)) else configs[i])
  }

  /** The configured subtask u lists v among its dependencies. */
  ghost predicate DependsOn(configs: Configs, u: int, v: int) {
    exists i :: 0 <= i < |configs| && configs[i].0 == u && v in configs[i].1.deps
  }

  /** Following dependencies from some subtask leads back to it; depending on oneself is the shortest way. */
  ghost predicate Circular(configs: Configs) {
    exists p: seq<int> :: |p| >= 2 && p[0] == p[|p| - 1] && forall i :: 0 <= i < |p| - 1 ==> DependsOn(configs, p[i], p[i + 1])
  }

  lemma EdgeIsDependency(configs: Configs, u: int, v: int)
    requires DistinctKeys(configs)
    ensures Edge(DepMap(configs), u, v) <==> DependsOn(configs, u, v)
  {
    if u in DepMap(configs) {
      var c :| c in configs && c.0 == u;
      var i :| 0 <= i < |configs| && configs[i] == c;
      DepMapAt(configs, i);
    }
    if i :| 0 <= i < |configs| && configs[i].0 == u && v in configs[i].1.deps {
      DepMapAt(configs, i);
    }
  }

  /** What have_cycle looks for, told of the configuration itself. */
  lemma CyclesAreCircular(configs: Configs)
    requires DistinctKeys(configs)
    ensures HasCycle(DepMap(configs)) <==> Circular(configs)
  {
    forall u, v
      ensures Edge(DepMap(configs), u, v) <==> DependsOn(configs, u, v)
    {
      EdgeIsDependency(configs, u, v);
    }
    hide Edge, DependsOn, DepMap;
    if HasCycle(DepMap(configs)) {
      var p :| IsCycle(DepMap(configs), p);
      assert forall i :: 0 <= i < |p| - 1 ==> DependsOn(configs, p[i], p[i + 1]);
    }
    if Circular(configs) {
      var p: seq<int> :| |p| >= 2 && p[0] == p[|p| - 1] && forall i :: 0 <= i < |p| - 1 ==> DependsOn(configs, p[i], p[i + 1]);
      assert IsCycle(DepMap(configs), p);
    }
  }

  lemma SelfDependencyIsCircular(configs: Configs, i: nat)
    requires i < |configs| && configs[i].0 in configs[i].1.deps
    ensures Circular(configs)
  {
    var p := [configs[i].0, configs[i].0];
    assert DependsOn(configs, p[0], p[0 + 1]);
  }

  /** The stored configuration of one problem. */
  class ProblemStore {
    var saved: Configs

    constructor (configs: Configs)
      ensures saved == configs
    {
      saved := configs;
    }

    /**
     set_dep_subtasks_action: saves exactly when the subtask and its dependencies exist and the
     changed configuration has no cycle; every saved configuration has a topological order, and none
     of its subtasks depends on itself.
     */
    method SetDepSubtasks(id: int, deps: set<int>) returns (r: Result<(), ActionError>, ghost order: seq<int>)
      requires DistinctKeys(saved)
      modifies this
      ensures DistinctKeys(saved)
      ensures r.Ok? == (id in Keys(old(saved)) && deps <= Keys(old(saved)) && !HasCycle(DepMap(WithDeps(old(saved), id, deps))))
      ensures saved == if r.Ok? then WithDeps(old(saved), id, deps) else old(saved)
      ensures r.Ok? ==> TopologicalOrder(DepMap(saved), order)
      ensures r.Ok? == (id in Keys(old(saved)) && deps <= Keys(old(saved)) && !Circular(WithDeps(old(saved), id, deps)))
      ensures r.Ok? ==> !Circular(saved) && forall i :: 0 <= i < |saved| ==> saved[i].0 !in saved[i].1.deps
      ensures r == Err(SubtaskNotFound) <==> id !in Keys(old(saved))
      ensures r == Err(DependencyNotFound) <==> id in Keys(old(saved)) && !(deps <= Keys(old(saved)))
    {
      hide HasCycle, Circular, TopologicalOrder, DepMap;
      order := [];
      var configs := saved;
      if id !in Keys(configs) {
        return Err(SubtaskNotFound), order;
      }
      if !(deps <= Keys(configs)) {
        return Err(DependencyNotFound), order;
      }
      configs := WithDeps(configs, id, deps);
      forall i | 0 <= i < |configs| && configs[i].0 in configs[i].1.deps
        ensures Circular(configs)
      {
        SelfDependencyIsCircular(configs, i);
      }
      var cyclic;
      cyclic, order := HaveCycle(configs);
      if cyclic {
        return Err(CyclicDependencies), order;
      }
      saved := configs;
      return Ok(()), order;
    }
  }
}
