/** The deadlock-cycle search of the lock graph view: detectCycle in frontend/src/components/lock/LockGraphView.tsx. */
module CycleFinder {

  datatype Edge = Edge(source: string, target: string)

  datatype Graph = Graph(nodes: seq<string>, edges: seq<Edge>) {

    /** An edge counts when its source is a listed node. */
    predicate Arc(a: string, b: string) {
      a in nodes && Edge(a, b) in edges
    }

    ghost function Ids(): set<string> {
      (set n | n in nodes) + (set i | 0 <= i < |edges| :: edges[i].target)
    }

    /** Distinct nodes, each with an arc to the next. */
    ghost predicate Path(p: seq<string>) {
      && (forall i, j :: 0 <= i < j < |p| ==> p[i] != p[j])
      && (forall i :: 0 <= i < |p| - 1 ==> Arc(p[i], p[i + 1]))
    }

    /** A directed cycle of two or more distinct nodes. */
    ghost predicate Cycle(c: seq<string>) {
      |c| >= 2 && Path(c) && Arc(c[|c| - 1], c[0])
    }
  }

  /** The part of a path from a node back to which its end has an arc. */
  lemma SliceIsCycle(graph: Graph, path: seq<string>, k: nat)
    requires graph.Path(path) && k + 2 <= |path| && graph.Arc(path[|path| - 1], path[k])
    ensures graph.Cycle(path[k..])
  {
    var cycle := path[k..];
    forall i | 0 <= i < |cycle| - 1 ensures graph.Arc(cycle[i], cycle[i + 1]) {
      assert graph.Arc(path[k + i], path[k + i + 1]);
    }
  }

  lemma LongerPath(graph: Graph, path: seq<string>, node: string)
    requires graph.Path(path) && node !in path
    requires path != [] ==> graph.Arc(path[|path| - 1], node)
    ensures graph.Path(path + [node])
  {
  }

  function Targets(n: string, edges: seq<Edge>): seq<string> {
    if edges == [] then []
    else
      var before := Targets(n, edges[..|edges| - 1]);
      var e := edges[|edges| - 1];
      if e.source == n then before + [e.target] else before
  }

  lemma {:induction false} TargetsAreArcs(n: string, edges: seq<Edge>, t: string)
    ensures t in Targets(n, edges) <==> Edge(n, t) in edges
  {
    if edges != [] {
      var init, e := edges[..|edges| - 1], edges[|edges| - 1];
      TargetsAreArcs(n, init, t);
      assert edges == init + [e];
    }
  }

  predicate IsInCycle(cycles: seq<seq<string>>, id: string) {
    exists i :: 0 <= i < |cycles| && id in cycles[i]
  }

  function IndexOf(path: seq<string>, node: string): (k: nat)
    requires node in path
    ensures k < |path| && path[k] == node && node !in path[..k]
  {
    if path[0] == node then 0 else 1 + IndexOf(path[1..], node)
  }

  /** What coming back to a node of the path adds: the path from there on, if it is two or more nodes long. */
  function Closing(path: seq<string>, node: string): seq<seq<string>> {
    if node in path && |path[IndexOf(path, node)..]| >= 2 then [path[IndexOf(path, node)..]] else []
  }

  // ---- what the search finds ----

  /** Every node first visited since then has all its successors visited. */
  ghost predicate Closed(graph: Graph, before: set<string>, visited: set<string>) {
    forall x, y :: x in visited && x !in before && graph.Arc(x, y) ==> y in visited
  }

  /** Every arc back to the root from another node first visited since then has been reported. */
  ghost predicate Reported(graph: Graph, before: set<string>, visited: set<string>, cycles: seq<seq<string>>, root: string) {
    forall x :: x in visited && x !in before && x != root && graph.Arc(x, root) ==> IsInCycle(cycles, root)
  }

  /** What a stretch of the search does, from the nodes visited and lists reported before it to those after it. */
  ghost predicate Found(graph: Graph, before: set<string>, was: seq<seq<string>>, visited: set<string>,
                        cycles: seq<seq<string>>, root: string) {
    && before <= visited <= graph.Ids() && was <= cycles
    && (forall i :: |was| <= i < |cycles| ==> graph.Cycle(cycles[i]))
    && Closed(graph, before, visited) && Reported(graph, before, visited, cycles, root)
  }

  lemma StillReported(some: seq<seq<string>>, more: seq<seq<string>>, id: string)
    requires some <= more
    ensures IsInCycle(some, id) ==> IsInCycle(more, id)
  {
    if IsInCycle(some, id) {
      var i :| 0 <= i < |some| && id in some[i];
      assert id in more[i];
    }
  }

  lemma FoundMore(graph: Graph, before: set<string>, was: seq<seq<string>>, visited: set<string>, cycles: seq<seq<string>>,
                  visited': set<string>, cycles': seq<seq<string>>, root: string)
    requires Found(graph, before, was, visited, cycles, root) && Found(graph, visited, cycles, visited', cycles', root)
    ensures Found(graph, before, was, visited', cycles', root)
  {
    hide Graph.Cycle, Graph.Ids, IsInCycle, Graph.Arc;
    StillReported(cycles, cycles', root);
    forall i | |was| <= i < |cycles'| ensures graph.Cycle(cycles'[i]) {
      if i < |cycles| { assert cycles[i] == cycles'[i]; }
    }
  }

  lemma FoundNone(graph: Graph, visited: set<string>, cycles: seq<seq<string>>, root: string)
    requires visited <= graph.Ids()
    ensures Found(graph, visited, cycles, visited, cycles, root)
  {
  }

  lemma FoundGrows(graph: Graph, before: set<string>, was: seq<seq<string>>, visited: set<string>, cycles: seq<seq<string>>,
                   root: string)
    requires Found(graph, before, was, visited, cycles, root)
    ensures before <= visited <= graph.Ids() && was <= cycles
  {
  }

  /** Once all its edges have been followed a node is one of those found. */
  lemma FoundNode(graph: Graph, before: set<string>, node: string, was: seq<seq<string>>, visited: set<string>,
                  cycles: seq<seq<string>>, root: string)
    requires Found(graph, before + {node}, was, visited, cycles, root)
    requires forall y :: graph.Arc(node, y) ==> y in visited
    requires node != root && graph.Arc(node, root) ==> IsInCycle(cycles, root)
    ensures Found(graph, before, was, visited, cycles, root)
  {
    hide Graph.Cycle, Graph.Ids, IsInCycle, Graph.Arc;
  }

  /** Coming back to a node of the path. */
  lemma FoundAgain(graph: Graph, path: seq<string>, node: string, visited: set<string>, cycles: seq<seq<string>>,
                   root: string)
    requires graph.Path(path) && node in path && graph.Arc(path[|path| - 1], node) && visited <= graph.Ids()
    ensures Found(graph, visited, cycles, visited, cycles + Closing(path, node), root)
    ensures |path[IndexOf(path, node)..]| >= 2 ==> IsInCycle(cycles + Closing(path, node), node)
  {
    hide Graph.Path, Graph.Ids, Graph.Cycle;
    var k := IndexOf(path, node);
    if |path[k..]| >= 2 {
      SliceIsCycle(graph, path, k);
      var more := cycles + [path[k..]];
      assert more[|more| - 1] == path[k..] && path[k..][0] == node;
    }
  }

  // ---- what the search from one root reports ----

  /** The k-th edge followed out of a node; parallel edges count one by one. */
  datatype Follow = Follow(source: string, k: nat)

  /**
   * What one root's search has done: the path on which it came to each node, how many edges it has followed out of each,
   * and which of those it has reported a list for, in order.
   */
  datatype Tree = Tree(paths: map<string, seq<string>>, followed: map<string, nat>, reported: seq<Follow>)

  function Successors(graph: Graph, n: string): seq<string> {
    if n in graph.nodes then Targets(n, graph.edges) else []
  }

  /** An edge the search has followed that leads back to another node of its path. */
  predicate LeadsBack(graph: Graph, tree: Tree, f: Follow) {
    && f.source in tree.paths && f.source in tree.followed
    && f.k < tree.followed[f.source] && f.k < |Successors(graph, f.source)|
    && Successors(graph, f.source)[f.k] in tree.paths[f.source] && Successors(graph, f.source)[f.k] != f.source
  }

  /** The list runs along the search's path, from the edge's target to its source. */
  ghost predicate Lists(graph: Graph, tree: Tree, f: Follow, list: seq<string>) {
    && LeadsBack(graph, tree, f)
    && list != [] && list[0] == Successors(graph, f.source)[f.k] && list[|list| - 1] == f.source
    && |list| <= |tree.paths[f.source]| && list == tree.paths[f.source][|tree.paths[f.source]| - |list|..]
  }

  /** There is one list, and no more, for each edge followed that leads back. */
  ghost predicate Explains(graph: Graph, tree: Tree, lists: seq<seq<string>>) {
    && tree.followed.Keys == tree.paths.Keys
    && |lists| == |tree.reported|
    && (forall i, j :: 0 <= i < j < |lists| ==> tree.reported[i] != tree.reported[j])
    && (forall f :: LeadsBack(graph, tree, f) ==> f in tree.reported)
    && (forall i :: 0 <= i < |lists| ==> Lists(graph, tree, tree.reported[i], lists[i]))
  }

  /** All edges out of the nodes it came to have been followed, and it came to each on a path of distinct nodes from root. */
  ghost predicate Finished(graph: Graph, tree: Tree, root: string) {
    && root in tree.paths && tree.followed.Keys == tree.paths.Keys
    && (forall x :: x in tree.paths ==> PathTo(graph, tree.paths[x], root, x) && tree.followed[x] == |Successors(graph, x)|)
    && (forall x, y :: x in tree.paths && graph.Arc(x, y) ==> y in tree.paths)
  }

  ghost predicate PathTo(graph: Graph, path: seq<string>, root: string, x: string) {
    path != [] && path[0] == root && path[|path| - 1] == x && graph.Path(path)
  }

  /** Coming to a node changes nothing yet. */
  lemma Arrive(graph: Graph, tree: Tree, lists: seq<seq<string>>, x: string, path: seq<string>)
    requires Explains(graph, tree, lists) && x !in tree.paths
    ensures Explains(graph, tree.(paths := tree.paths[x := path], followed := tree.followed[x := 0]), lists)
  {
    var after := tree.(paths := tree.paths[x := path], followed := tree.followed[x := 0]);
    forall f | LeadsBack(graph, after, f) ensures f in tree.reported { assert LeadsBack(graph, tree, f); }
    forall i | 0 <= i < |lists| ensures Lists(graph, after, tree.reported[i], lists[i]) {
      assert Lists(graph, tree, tree.reported[i], lists[i]);
    }
  }

  /** An edge that does not lead back leaves no list. */
  lemma FollowOn(graph: Graph, tree: Tree, lists: seq<seq<string>>, x: string)
    requires Explains(graph, tree, lists) && x in tree.paths && tree.followed[x] < |Successors(graph, x)|
    requires var t := Successors(graph, x)[tree.followed[x]]; t !in tree.paths[x] || t == x
    ensures Explains(graph, tree.(followed := tree.followed[x := tree.followed[x] + 1]), lists)
  {
    var after := tree.(followed := tree.followed[x := tree.followed[x] + 1]);
    forall f | LeadsBack(graph, after, f) ensures f in tree.reported { assert LeadsBack(graph, tree, f); }
    forall i | 0 <= i < |lists| ensures Lists(graph, after, tree.reported[i], lists[i]) {
      assert Lists(graph, tree, tree.reported[i], lists[i]);
    }
  }

  /** One that leads back leaves one. */
  lemma FollowBack(graph: Graph, tree: Tree, lists: seq<seq<string>>, x: string, list: seq<string>)
    requires Explains(graph, tree, lists) && x in tree.paths && tree.followed[x] < |Successors(graph, x)|
    requires Successors(graph, x)[tree.followed[x]] in tree.paths[x] && Successors(graph, x)[tree.followed[x]] != x
    requires list != [] && list[0] == Successors(graph, x)[tree.followed[x]] && list[|list| - 1] == x
    requires |list| <= |tree.paths[x]| && list == tree.paths[x][|tree.paths[x]| - |list|..]
    ensures Explains(graph, tree.(followed := tree.followed[x := tree.followed[x] + 1],
                                  reported := tree.reported + [Follow(x, tree.followed[x])]), lists + [list])
  {
    var back := Follow(x, tree.followed[x]);
    var after := tree.(followed := tree.followed[x := tree.followed[x] + 1], reported := tree.reported + [back]);
    forall f | LeadsBack(graph, after, f) ensures f in after.reported {
      if f != back { assert LeadsBack(graph, tree, f); }
    }
    forall i | 0 <= i < |lists| ensures Lists(graph, after, after.reported[i], (lists + [list])[i]) && tree.reported[i] != back {
      assert Lists(graph, tree, tree.reported[i], lists[i]);
    }
  }

  /** Tree grows from before to after: what was known stays, and all new nodes but some are finished with. */
  ghost predicate Grows(graph: Graph, before: Tree, after: Tree, root: string, but: set<string>) {
    && before.followed.Keys == before.paths.Keys && after.followed.Keys == after.paths.Keys
    && (forall x :: x in before.paths ==>
          x in after.paths && after.paths[x] == before.paths[x] && after.followed[x] == before.followed[x])
    && (forall x :: x in after.paths && x !in before.paths && x !in but ==>
          PathTo(graph, after.paths[x], root, x) && after.followed[x] == |Successors(graph, x)|)
  }

  lemma GrowsNot(graph: Graph, tree: Tree, root: string)
    requires tree.followed.Keys == tree.paths.Keys
    ensures Grows(graph, tree, tree, root, {})
  {
  }

  /** Following one more edge out of node, after searching what it leads to. */
  lemma GrowsOn(graph: Graph, was: Tree, told: Tree, searched: Tree, after: Tree, root: string, node: string)
    requires Grows(graph, was, told, root, {node}) && Grows(graph, told, searched, root, {})
    requires node in told.paths && node !in was.paths
    requires after.paths == searched.paths && after.followed == searched.followed[node := told.followed[node] + 1]
    ensures Grows(graph, was, after, root, {node})
  {
    hide PathTo, Successors;
    forall x | x in was.paths
      ensures x in after.paths && after.paths[x] == was.paths[x] && after.followed[x] == was.followed[x]
    {
      assert x in told.paths && x in searched.paths;
    }
    forall x | x in after.paths && x !in was.paths && x != node
      ensures PathTo(graph, after.paths[x], root, x) && after.followed[x] == |Successors(graph, x)|
    {
      if x in told.paths { assert searched.paths[x] == told.paths[x]; }
    }
  }

  lemma PathOf(graph: Graph, path: seq<string>)
    requires path != [] && graph.Path(path)
    ensures PathTo(graph, path, path[0], path[|path| - 1])
    ensures forall i, j :: 0 <= i < j < |path| ==> path[i] != path[j]
  {
  }

  /** All edges out of node have been followed. */
  lemma GrowsDone(graph: Graph, was: Tree, tree: Tree, root: string, node: string)
    requires Grows(graph, was, tree, root, {node}) && node in tree.paths
    requires PathTo(graph, tree.paths[node], root, node) && tree.followed[node] == |Successors(graph, node)|
    ensures Grows(graph, was, tree, root, {})
  {
  }

  lemma GrowsBy(graph: Graph, tree: Tree, node: string, path: seq<string>, root: string)
    requires tree.followed.Keys == tree.paths.Keys && node !in tree.paths
    ensures Grows(graph, tree, tree.(paths := tree.paths[node := path], followed := tree.followed[node := 0]), root, {node})
  {
  }

  lemma ClosesBack(path: seq<string>, node: string) returns (list: seq<string>)
    requires node in path && node != path[|path| - 1]
    ensures Closing(path, node) == [list] && list != [] && list[0] == node && list[|list| - 1] == path[|path| - 1]
    ensures |list| <= |path| && list == path[|path| - |list|..]
  {
    list := path[IndexOf(path, node)..];
  }

  lemma ClosesNothing(path: seq<string>)
    requires path != [] && forall i, j :: 0 <= i < j < |path| ==> path[i] != path[j]
    ensures Closing(path, path[|path| - 1]) == []
  {
    var node := path[|path| - 1];
    assert path[IndexOf(path, node)] == node;
  }

  /** The lists from place start on are those the tree explains. */
  ghost predicate Tells(graph: Graph, tree: Tree, visited: set<string>, cycles: seq<seq<string>>, start: nat) {
    && start <= |cycles| && tree.followed.Keys == tree.paths.Keys == visited
    && Explains(graph, tree, cycles[start..])
  }

  /** One more edge followed out of the end of a path, to a node of the path or to one now searched. */
  lemma FollowEdge(graph: Graph, was: Tree, told: Tree, v: set<string>, c: seq<seq<string>>, searched: Tree,
                   visited: set<string>, cycles: seq<seq<string>>, start: nat, path: seq<string>, next: string, root: string)
    returns (after: Tree)
    requires path != [] && forall i, j :: 0 <= i < j < |path| ==> path[i] != path[j]
    requires var x := path[|path| - 1];
             && x in told.paths && told.paths[x] == path && x !in was.paths && Grows(graph, was, told, root, {x})
             && x in told.followed && told.followed[x] < |Successors(graph, x)|
             && Successors(graph, x)[told.followed[x]] == next
    requires Tells(graph, told, v, c, start)
    requires next in path ==> searched == told && visited == v && cycles == c + Closing(path, next)
    requires next !in path ==> Tells(graph, searched, visited, cycles, start) && Grows(graph, told, searched, root, {})
    ensures var x := path[|path| - 1];
            && Tells(graph, after, visited, cycles, start) && Grows(graph, was, after, root, {x})
            && x in after.paths && after.paths[x] == path
            && x in after.followed && after.followed[x] == told.followed[x] + 1
  {
    var x := path[|path| - 1];
    if next in path {
      GrowsNot(graph, told, root);
      if next != x {
        after := FollowToPath(graph, told, v, c, cycles, start, path, next);
      } else {
        ClosesNothing(path);
        assert c + [] == c;
        after := FollowPast(graph, searched, v, c, start, x);
      }
    } else {
      assert searched.paths[x] == path && searched.followed[x] == told.followed[x];
      after := FollowPast(graph, searched, visited, cycles, start, x);
    }
    hide Tells, PathTo;
    GrowsOn(graph, was, told, searched, after, root, x);
  }

  lemma FollowPast(graph: Graph, tree: Tree, visited: set<string>, cycles: seq<seq<string>>, start: nat, x: string)
    returns (after: Tree)
    requires Tells(graph, tree, visited, cycles, start) && x in tree.paths && tree.followed[x] < |Successors(graph, x)|
    requires var t := Successors(graph, x)[tree.followed[x]]; t !in tree.paths[x] || t == x
    ensures Tells(graph, after, visited, cycles, start)
    ensures after.paths == tree.paths && after.followed == tree.followed[x := tree.followed[x] + 1]
  {
    hide Explains;
    FollowOn(graph, tree, cycles[start..], x);
    after := tree.(followed := tree.followed[x := tree.followed[x] + 1]);
  }

  lemma FollowToPath(graph: Graph, tree: Tree, visited: set<string>, was: seq<seq<string>>, cycles: seq<seq<string>>,
                     start: nat, path: seq<string>, next: string)
    returns (after: Tree)
    requires Tells(graph, tree, visited, was, start) && path != []
    requires var x := path[|path| - 1];
             && x in tree.paths && tree.paths[x] == path && next in path && next != x
             && tree.followed[x] < |Successors(graph, x)| && Successors(graph, x)[tree.followed[x]] == next
    requires cycles == was + Closing(path, next)
    ensures Tells(graph, after, visited, cycles, start)
    ensures after.paths == tree.paths
    ensures after.followed == tree.followed[path[|path| - 1] := tree.followed[path[|path| - 1]] + 1]
  {
    hide Explains, Closing;
    var x := path[|path| - 1];
    var list := ClosesBack(path, next);
    FollowBack(graph, tree, was[start..], x, list);
    assert cycles[start..] == was[start..] + [list];
    after := tree.(followed := tree.followed[x := tree.followed[x] + 1],
                   reported := tree.reported + [Follow(x, tree.followed[x])]);
  }

  lemma TellsKeys(graph: Graph, tree: Tree, visited: set<string>, cycles: seq<seq<string>>, start: nat)
    requires Tells(graph, tree, visited, cycles, start)
    ensures start <= |cycles| && tree.followed.Keys == tree.paths.Keys == visited
  {
  }

  /** Coming to the end of a path for the first time. */
  lemma ArriveAt(graph: Graph, tree: Tree, visited: set<string>, cycles: seq<seq<string>>, start: nat, path: seq<string>)
    returns (after: Tree)
    requires Tells(graph, tree, visited, cycles, start) && path != [] && path[|path| - 1] !in visited
    ensures var x := path[|path| - 1];
            && Tells(graph, after, visited + {x}, cycles, start) && Grows(graph, tree, after, path[0], {x})
            && x in after.paths && after.paths[x] == path && x in after.followed && after.followed[x] == 0
            && x !in tree.paths
  {
    var x := path[|path| - 1];
    Arrive(graph, tree, cycles[start..], x, path);
    GrowsBy(graph, tree, x, path, path[0]);
    after := tree.(paths := tree.paths[x := path], followed := tree.followed[x := 0]);
  }

  /** A search may go down from path to node. */
  ghost predicate Descends(graph: Graph, visited: set<string>, path: seq<string>, node: string) {
    && graph.Path(path)
    && (forall i :: 0 <= i < |path| ==> path[i] in visited)
    && (path != [] ==> graph.Arc(path[|path| - 1], node))
    && visited <= graph.Ids() && node in graph.Ids()
  }

  /** Where a search stands: the nodes visited, the lists reported, and the tree that explains them. */
  datatype Standing = Standing(visited: set<string>, cycles: seq<seq<string>>, tree: Tree)

  /** What a visit of node at the end of path does. */
  ghost predicate Visited(graph: Graph, was: Standing, now: Standing, start: nat, path: seq<string>, node: string) {
    && Found(graph, was.visited, was.cycles, now.visited, now.cycles, (path + [node])[0]) && node in now.visited
    && (node in path && |path[IndexOf(path, node)..]| >= 2 ==> IsInCycle(now.cycles, node))
    && (node in path ==> now == was.(cycles := was.cycles + Closing(path, node)))
    && (node !in path ==> Tells(graph, now.tree, now.visited, now.cycles, start)
                          && Grows(graph, was.tree, now.tree, (path + [node])[0], {}))
  }

  /** The first i edges out of the end of the path have been followed. */
  ghost predicate Under(graph: Graph, was: Standing, now: Standing, start: nat, path: seq<string>, i: nat) {
    && path != [] && graph.Path(path) && (forall k :: 0 <= k < |path| ==> path[k] in now.visited)
    && var x, root := path[|path| - 1], path[0];
       && start <= |was.cycles| && x !in was.visited && was.tree.paths.Keys == was.visited
       && Found(graph, was.visited + {x}, was.cycles, now.visited, now.cycles, root)
       && Tells(graph, now.tree, now.visited, now.cycles, start) && Grows(graph, was.tree, now.tree, root, {x})
       && x in now.tree.paths && now.tree.paths[x] == path && x in now.tree.followed && now.tree.followed[x] == i
       && i <= |Successors(graph, x)|
       && Led(Successors(graph, x)[..i], now, root, x)
  }

  /** These nodes are visited, and if the root is among them, and is another node than x, it has been reported. */
  ghost predicate Led(targets: seq<string>, now: Standing, root: string, x: string) {
    && (forall j :: 0 <= j < |targets| ==> targets[j] in now.visited)
    && (root in targets && root != x ==> IsInCycle(now.cycles, root))
  }

  lemma LedOn(targets: seq<string>, i: nat, now: Standing, after: Standing, root: string, x: string)
    requires i < |targets| && Led(targets[..i], now, root, x) && now.visited <= after.visited
    requires IsInCycle(now.cycles, root) ==> IsInCycle(after.cycles, root)
    requires targets[i] in after.visited && (targets[i] == root != x ==> IsInCycle(after.cycles, root))
    ensures Led(targets[..i + 1], after, root, x)
  {
    hide IsInCycle;
    assert targets[..i + 1] == targets[..i] + [targets[i]];
  }

  lemma SuccessorsAreArcs(graph: Graph, node: string, t: string)
    ensures t in Successors(graph, node) <==> graph.Arc(node, t)
    ensures graph.Arc(node, t) ==> t in graph.Ids()
  {
    TargetsAreArcs(node, graph.edges, t);
    if graph.Arc(node, t) {
      var i :| 0 <= i < |graph.edges| && graph.edges[i] == Edge(node, t);
      assert graph.edges[i].target == t;
    }
  }

  lemma UnderStart(graph: Graph, was: Standing, start: nat, path: seq<string>, node: string) returns (tree: Tree)
    requires Descends(graph, was.visited, path, node) && Tells(graph, was.tree, was.visited, was.cycles, start)
    requires node !in was.visited && node !in path
    ensures Under(graph, was, Standing(was.visited + {node}, was.cycles, tree), start, path + [node], 0)
  {
    hide Graph.Path, Graph.Ids, Graph.Cycle, Tells, Found, Grows, PathTo;
    LongerPath(graph, path, node);
    TellsKeys(graph, was.tree, was.visited, was.cycles, start);
    tree := ArriveAt(graph, was.tree, was.visited, was.cycles, start, path + [node]);
    FoundNone(graph, was.visited + {node}, was.cycles, (path + [node])[0]);
  }

  lemma UnderNext(graph: Graph, was: Standing, now: Standing, start: nat, path: seq<string>, i: nat)
    requires Under(graph, was, now, start, path, i) && i < |Successors(graph, path[|path| - 1])|
    ensures Descends(graph, now.visited, path, Successors(graph, path[|path| - 1])[i])
    ensures Tells(graph, now.tree, now.visited, now.cycles, start)
    ensures was.visited + {path[|path| - 1]} <= now.visited <= graph.Ids()
  {
    hide Graph.Path, Graph.Ids, Graph.Cycle, Tells, Grows, PathTo;
    SuccessorsAreArcs(graph, path[|path| - 1], Successors(graph, path[|path| - 1])[i]);
  }

  /** Nodes and lists after one more edge; the tree is not told yet. */
  lemma UnderFound(graph: Graph, was: Standing, now: Standing, after: Standing, start: nat, path: seq<string>, i: nat)
    requires Under(graph, was, now, start, path, i) && i < |Successors(graph, path[|path| - 1])|
    requires Visited(graph, now, after, start, path, Successors(graph, path[|path| - 1])[i])
    ensures var x, root := path[|path| - 1], path[0];
            && Found(graph, was.visited + {x}, was.cycles, after.visited, after.cycles, root)
            && now.visited <= after.visited
            && (IsInCycle(now.cycles, root) ==> IsInCycle(after.cycles, root))
            && (Successors(graph, x)[i] == root != x ==> IsInCycle(after.cycles, root))
  {
    var x, root := path[|path| - 1], path[0];
    hide Graph.Path, Graph.Ids, Graph.Cycle, Tells, Found, Grows, PathTo, IsInCycle, Successors;
    FoundMore(graph, was.visited + {x}, was.cycles, now.visited, now.cycles, after.visited, after.cycles, root);
    FoundGrows(graph, now.visited, now.cycles, after.visited, after.cycles, root);
    StillReported(now.cycles, after.cycles, root);
    if Successors(graph, x)[i] == root != x { assert IndexOf(path, root) == 0; }
  }

  lemma UnderTold(graph: Graph, was: Standing, now: Standing, after: Standing, start: nat, path: seq<string>, i: nat)
    returns (tree: Tree)
    requires Under(graph, was, now, start, path, i) && i < |Successors(graph, path[|path| - 1])|
    requires Visited(graph, now, after, start, path, Successors(graph, path[|path| - 1])[i])
    ensures var x := path[|path| - 1];
            && Tells(graph, tree, after.visited, after.cycles, start) && Grows(graph, was.tree, tree, path[0], {x})
            && x in tree.paths && tree.paths[x] == path && x in tree.followed && tree.followed[x] == i + 1
  {
    PathOf(graph, path);
    hide Graph.Path, Graph.Ids, Graph.Cycle, Tells, Found, Grows, PathTo, IsInCycle, Successors, IndexOf, Closing;
    tree := FollowEdge(graph, was.tree, now.tree, now.visited, now.cycles, after.tree, after.visited, after.cycles, start,
                       path, Successors(graph, path[|path| - 1])[i], path[0]);
  }

  lemma UnderStep(graph: Graph, was: Standing, now: Standing, after: Standing, start: nat, path: seq<string>, i: nat)
    returns (tree: Tree)
    requires Under(graph, was, now, start, path, i) && i < |Successors(graph, path[|path| - 1])|
    requires Visited(graph, now, after, start, path, Successors(graph, path[|path| - 1])[i])
    ensures Under(graph, was, after.(tree := tree), start, path, i + 1)
  {
    UnderFound(graph, was, now, after, start, path, i);
    tree := UnderTold(graph, was, now, after, start, path, i);
    VisitedNext(graph, now, after, start, path, Successors(graph, path[|path| - 1])[i]);
    hide Graph.Path, Visited, Tells, Found, Grows, IsInCycle, Successors, Led;
    LedOn(Successors(graph, path[|path| - 1]), i, now, after.(tree := tree), path[0], path[|path| - 1]);
  }

  lemma VisitedNext(graph: Graph, was: Standing, now: Standing, start: nat, path: seq<string>, node: string)
    requires Visited(graph, was, now, start, path, node)
    ensures node in now.visited
  {
  }

  lemma UnderDone(graph: Graph, was: Standing, now: Standing, start: nat, path: seq<string>, node: string)
    requires node !in path && Under(graph, was, now, start, path + [node], |Successors(graph, node)|)
    ensures Visited(graph, was, now, start, path, node)
  {
    var longer := path + [node];
    var root := longer[0];
    PathOf(graph, longer);
    hide Graph.Path, Graph.Ids, Graph.Cycle, Tells, Found, Grows, PathTo, IsInCycle, Successors;
    forall y | graph.Arc(node, y) ensures y in now.visited && (y == root != node ==> IsInCycle(now.cycles, root)) {
      SuccessorsAreArcs(graph, node, y);
    }
    FoundGrows(graph, was.visited + {node}, was.cycles, now.visited, now.cycles, root);
    FoundNode(graph, was.visited, node, was.cycles, now.visited, now.cycles, root);
    GrowsDone(graph, was.tree, now.tree, root, node);
  }

  lemma InPath(graph: Graph, visited: set<string>, path: seq<string>, node: string)
    requires Descends(graph, visited, path, node) && node in path
    ensures node in visited
  {
  }

  lemma IdLeft(graph: Graph, visited: set<string>, path: seq<string>, node: string)
    requires Descends(graph, visited, path, node) && node !in visited
    ensures node in graph.Ids() && visited <= graph.Ids()
  {
  }

  lemma VisitedAgain(graph: Graph, was: Standing, start: nat, path: seq<string>, node: string)
    requires Descends(graph, was.visited, path, node) && Tells(graph, was.tree, was.visited, was.cycles, start)
    requires node in was.visited
    ensures Visited(graph, was, was.(cycles := was.cycles + Closing(path, node)), start, path, node)
  {
    hide Graph.Path, Graph.Ids, Graph.Cycle, Tells, Found, Grows, PathTo, IsInCycle;
    if node in path {
      FoundAgain(graph, path, node, was.visited, was.cycles, (path + [node])[0]);
    } else {
      assert was.cycles + [] == was.cycles;
      TellsKeys(graph, was.tree, was.visited, was.cycles, start);
      GrowsNot(graph, was.tree, (path + [node])[0]);
      FoundNone(graph, was.visited, was.cycles, (path + [node])[0]);
    }
  }

  class Search {
    ghost const graph: Graph
    var adj: map<string, seq<string>>
    var visited: set<string>
    var cycles: seq<seq<string>>
    ghost var start: nat
    ghost var tree: Tree

    ghost predicate Valid()
      reads this
    {
      && adj.Keys == (set n | n in graph.nodes)
      && (forall n :: n in adj ==> adj[n] == Targets(n, graph.edges))
    }

    function Next(node: string): (next: seq<string>)
      reads this
    {
      if node in adj then adj[node] else []
    }

    lemma NextIs(node: string)
      requires Valid()
      ensures Next(node) == Successors(graph, node)
    {
    }

    constructor (nodes: seq<string>, edges: seq<Edge>)
      ensures Valid() && graph == Graph(nodes, edges)
      ensures visited == {} && cycles == []
    {
      start, tree := 0, Tree(map[], map[], []);
      graph := Graph(nodes, edges);
      adj := map[];
      visited := {};
      cycles := [];
      new;
      for i := 0 to |nodes|
        invariant adj.Keys == set n | n in nodes[..i]
        invariant forall n :: n in adj ==> adj[n] == []
        invariant visited == {} && cycles == []
      {
        adj := adj[nodes[i] := []];
      }
      assert nodes[..|nodes|] == nodes;
      for i := 0 to |edges|
        invariant adj.Keys == set n | n in nodes
        invariant forall n :: n in adj ==> adj[n] == Targets(n, edges[..i])
        invariant visited == {} && cycles == []
      {
        var src, tgt := edges[i].source, edges[i].target;
        assert edges[..i + 1][..i] == edges[..i];
        if src in adj {
          adj := adj[src := adj[src] + [tgt]];
        }
      }
      assert edges[..|edges|] == edges;
    }

    ghost function Now(): Standing
      reads this
    {
      Standing(visited, cycles, tree)
    }

    /** The lists of this root's search, from place start on, are those its tree explains. */
    ghost predicate Told()
      reads this
    {
      Tells(graph, tree, visited, cycles, start)
    }

    method Dfs(node: string, path: seq<string>)
      requires Valid() && Descends(graph, visited, path, node) && Told()
      modifies this`visited, this`cycles, this`tree
      ensures Visited(graph, old(Now()), Now(), start, path, node)
      decreases graph.Ids() - visited
    {
      hide Graph.Cycle, Graph.Path, Graph.Ids, Descends, Visited, Under, Tells;
      if node in path {
        InPath(graph, visited, path, node);
        VisitedAgain(graph, Now(), start, path, node);
        var cycle := path[IndexOf(path, node)..];
        if |cycle| >= 2 {
          cycles := cycles + [cycle];
        } else {
          assert cycles + [] == cycles;
        }
        return;
      }
      if node in visited {
        VisitedAgain(graph, Now(), start, path, node);
        assert cycles + [] == cycles;
        return;
      }
      ghost var was := Now();
      tree := UnderStart(graph, was, start, path, node);
      IdLeft(graph, visited, path, node);
      visited := visited + {node};
      var longer := path + [node];
      var targets := Next(node);
      NextIs(node);
      for i := 0 to |targets|
        invariant Under(graph, was, Now(), start, longer, i)
      {
        var next := targets[i];
        ghost var now := Now();
        UnderNext(graph, was, now, start, longer, i);
        Dfs(next, longer);
        tree := UnderStep(graph, was, now, Now(), start, longer, i);
      }
      UnderDone(graph, was, Now(), start, path, node);
    }
  }

  /** From any node of a cycle, a closed set reaches the node before it. */
  lemma {:induction false} ClosedHoldsCycle(graph: Graph, c: seq<string>, k: nat, s: set<string>, steps: nat)
    requires graph.Cycle(c) && k < |c| && c[k] in s && steps < |c|
    requires forall x, y :: x in s && graph.Arc(x, y) ==> y in s
    ensures c[if k + steps < |c| then k + steps else k + steps - |c|] in s
    decreases steps
  {
    if steps > 0 {
      ClosedHoldsCycle(graph, c, k, s, steps - 1);
      var at := if k + (steps - 1) < |c| then k + (steps - 1) else k + (steps - 1) - |c|;
      if at + 1 < |c| {
        assert graph.Arc(c[at], c[at + 1]);
      } else {
        assert graph.Arc(c[at], c[0]);
      }
    }
  }

  /** id lies on a directed cycle of two or more nodes. */
  ghost predicate OnCycle(graph: Graph, id: string) {
    exists c :: graph.Cycle(c) && id in c
  }

  /** The node before id on a cycle: visited with id, distinct from it, with an arc back to it. */
  lemma CycleReturns(graph: Graph, id: string, s: set<string>) returns (u: string)
    requires OnCycle(graph, id) && id in s
    requires forall x, y :: x in s && graph.Arc(x, y) ==> y in s
    ensures u in s && u != id && graph.Arc(u, id)
  {
    var c :| graph.Cycle(c) && id in c;
    var k :| 0 <= k < |c| && c[k] == id;
    ClosedHoldsCycle(graph, c, k, s, |c| - 1);
    if k == 0 {
      u := c[|c| - 1];
    } else {
      u := c[k - 1];
      assert graph.Arc(c[k - 1], c[k - 1 + 1]);
    }
  }

  lemma OnCycleIsNode(graph: Graph, id: string)
    requires OnCycle(graph, id)
    ensures id in graph.nodes
  {
    var c :| graph.Cycle(c) && id in c;
    var k :| 0 <= k < |c| && c[k] == id;
    assert graph.Arc(c[k], if k + 1 < |c| then c[k + 1] else c[0]);
  }

  /** The lists from place from on, up to place to, are those of a finished search from root. */
  ghost predicate FromRoot(graph: Graph, tree: Tree, root: string, cycles: seq<seq<string>>, from: nat, to: nat) {
    from <= to <= |cycles| && Finished(graph, tree, root) && Explains(graph, tree, cycles[from..to])
  }

  lemma FinishedSearch(graph: Graph, tree: Tree, root: string)
    requires Grows(graph, Tree(map[], map[], []), tree, root, {}) && Closed(graph, {}, tree.paths.Keys) && root in tree.paths
    ensures Finished(graph, tree, root)
  {
    hide PathTo;
  }

  lemma NothingToExplain(graph: Graph)
    ensures Explains(graph, Tree(map[], map[], []), [])
  {
  }

  lemma {:induction false} TargetsDistinct(n: string, edges: seq<Edge>)
    requires forall i, j :: 0 <= i < j < |edges| ==> edges[i] != edges[j]
    ensures forall k, l :: 0 <= k < l < |Targets(n, edges)| ==> Targets(n, edges)[k] != Targets(n, edges)[l]
  {
    if edges != [] {
      var init, e := edges[..|edges| - 1], edges[|edges| - 1];
      TargetsDistinct(n, init);
      TargetsAreArcs(n, init, e.target);
    }
  }

  predicate OtherEnds(a: seq<string>, b: seq<string>) {
    a != [] && b != [] && (a[0] != b[0] || a[|a| - 1] != b[|b| - 1])
  }

  /** No two of these lists start at the same node and end at the same node. */
  ghost predicate EndsDiffer(cycles: seq<seq<string>>, from: nat, to: nat) {
    from <= to <= |cycles| && forall i, j :: from <= i < j < to ==> OtherEnds(cycles[i], cycles[j])
  }

  lemma ListEndsDiffer(graph: Graph, tree: Tree, lists: seq<seq<string>>, i: nat, j: nat)
    requires Explains(graph, tree, lists) && i < j < |lists|
    requires forall k, l :: 0 <= k < l < |graph.edges| ==> graph.edges[k] != graph.edges[l]
    ensures OtherEnds(lists[i], lists[j])
  {
    var f, g := tree.reported[i], tree.reported[j];
    assert Lists(graph, tree, f, lists[i]) && Lists(graph, tree, g, lists[j]) && f != g;
    if f.source == g.source { TargetsDistinct(f.source, graph.edges); }
  }

  lemma RootEndsDiffer(graph: Graph, tree: Tree, root: string, cycles: seq<seq<string>>, from: nat, to: nat)
    requires FromRoot(graph, tree, root, cycles, from, to)
    requires forall k, l :: 0 <= k < l < |graph.edges| ==> graph.edges[k] != graph.edges[l]
    ensures EndsDiffer(cycles, from, to)
  {
    hide Explains, Finished, OtherEnds;
    var lists := cycles[from..to];
    forall i, j | from <= i < j < to ensures OtherEnds(cycles[i], cycles[j]) {
      assert lists[i - from] == cycles[i] && lists[j - from] == cycles[j];
      ListEndsDiffer(graph, tree, lists, i - from, j - from);
    }
  }

  /**
   * trees says for each root in turn on which paths its search came to which nodes; its lists, those between two cuts,
   * are one for each edge it followed back to another node of its path.
   */
  method DetectCycle(nodes: seq<string>, edges: seq<Edge>)
    returns (cycles: seq<seq<string>>, ghost trees: seq<Tree>, ghost cuts: seq<nat>)
    ensures forall i :: 0 <= i < |cycles| ==> Graph(nodes, edges).Cycle(cycles[i])
    ensures forall id :: IsInCycle(cycles, id) <==> OnCycle(Graph(nodes, edges), id)
    ensures |trees| == |nodes| && |cuts| == |nodes| + 1 && cuts[0] == 0 && cuts[|nodes|] == |cycles|
    ensures forall i :: 0 <= i < |nodes| ==> FromRoot(Graph(nodes, edges), trees[i], nodes[i], cycles, cuts[i], cuts[i + 1])
    ensures (forall k, l :: 0 <= k < l < |edges| ==> edges[k] != edges[l]) ==>
              forall i :: 0 <= i < |nodes| ==> EndsDiffer(cycles, cuts[i], cuts[i + 1])
  {
    hide Graph.Cycle, OnCycle, Graph.Ids, Explains, Finished, Descends, Visited;
    var search := new Search(nodes, edges);
    ghost var graph := search.graph;
    trees, cuts := [], [0];
    for i := 0 to |nodes|
      invariant search.Valid() && search.graph == graph
      invariant fresh(search)
      invariant forall j :: 0 <= j < |search.cycles| ==> graph.Cycle(search.cycles[j])
      invariant forall j :: 0 <= j < i && OnCycle(graph, nodes[j]) ==> IsInCycle(search.cycles, nodes[j])
      invariant |trees| == i && |cuts| == i + 1 && cuts[0] == 0 && cuts[i] == |search.cycles|
      invariant forall j :: 0 <= j < i ==> FromRoot(graph, trees[j], nodes[j], search.cycles, cuts[j], cuts[j + 1])
    {
      search.visited := {};
      search.start, search.tree := |search.cycles|, Tree(map[], map[], []);
      ghost var before := search.cycles;
      NothingToExplain(graph);
      assert before[|before|..] == [];
      RootDescends(graph, i);
      search.Dfs(nodes[i], []);
      RootVisited(graph, before, search.Now(), nodes[i]);
      forall j | 0 <= j <= i && OnCycle(graph, nodes[j]) ensures IsInCycle(search.cycles, nodes[j]) {
        if j < i {
          StillReported(before, search.cycles, nodes[j]);
        } else {
          var u := CycleReturns(graph, nodes[i], search.visited);
        }
      }
      trees, cuts := trees + [search.tree], cuts + [|search.cycles|];
      assert search.cycles[|before|..|search.cycles|] == search.cycles[|before|..];
      forall j | 0 <= j <= i ensures FromRoot(graph, trees[j], nodes[j], search.cycles, cuts[j], cuts[j + 1]) {
        if j < i { EarlierRoot(graph, trees[j], nodes[j], before, search.cycles, cuts[j], cuts[j + 1]); }
      }
    }
    cycles := search.cycles;
    if forall k, l :: 0 <= k < l < |edges| ==> edges[k] != edges[l] {
      forall i | 0 <= i < |nodes| ensures EndsDiffer(cycles, cuts[i], cuts[i + 1]) {
        RootEndsDiffer(graph, trees[i], nodes[i], cycles, cuts[i], cuts[i + 1]);
      }
    }
    hide EndsDiffer;
    forall id | OnCycle(graph, id) ensures IsInCycle(cycles, id) {
      OnCycleIsNode(graph, id);
    }
    forall id | IsInCycle(cycles, id) ensures OnCycle(graph, id) {
      var i :| 0 <= i < |cycles| && id in cycles[i];
      CycleNode(graph, cycles[i], id);
    }
  }

  lemma RootDescends(graph: Graph, i: nat)
    requires i < |graph.nodes|
    ensures Descends(graph, {}, [], graph.nodes[i])
  {
  }

  /** What the search from one root leaves behind. */
  lemma RootVisited(graph: Graph, was: seq<seq<string>>, now: Standing, root: string)
    requires Visited(graph, Standing({}, was, Tree(map[], map[], [])), now, |was|, [], root)
    requires forall i :: 0 <= i < |was| ==> graph.Cycle(was[i])
    ensures was <= now.cycles && forall i :: 0 <= i < |now.cycles| ==> graph.Cycle(now.cycles[i])
    ensures root in now.visited && Closed(graph, {}, now.visited) && Reported(graph, {}, now.visited, now.cycles, root)
    ensures Finished(graph, now.tree, root) && Explains(graph, now.tree, now.cycles[|was|..])
  {
    hide Graph.Cycle, Graph.Ids, Grows, Explains, Finished;
    forall i | 0 <= i < |now.cycles| ensures graph.Cycle(now.cycles[i]) {
      if i < |was| { assert now.cycles[i] == was[i]; }
    }
    FinishedSearch(graph, now.tree, root);
  }

  lemma EarlierRoot(graph: Graph, tree: Tree, root: string, was: seq<seq<string>>, cycles: seq<seq<string>>, from: nat, to: nat)
    requires FromRoot(graph, tree, root, was, from, to) && was <= cycles
    ensures FromRoot(graph, tree, root, cycles, from, to)
  {
    hide Finished, Explains;
    assert cycles[from..to] == was[from..to];
  }

  lemma CycleNode(graph: Graph, c: seq<string>, id: string)
    requires graph.Cycle(c) && id in c
    ensures OnCycle(graph, id)
  {
  }
}
