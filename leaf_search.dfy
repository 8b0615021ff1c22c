/** find_related_leafs and find_related_leafs_compare of task2.py: a
    traversal over a deque of (node, path so far) items that records every
    sink (a node without out-edges) it meets, together with the path it was
    met along. Popping from the front gives breadth-first order, popping
    from the back depth-first order. */
module LeafSearch {
  import opened Wrappers
  import opened Graphs

  /** The GraphSearchMethod enum. */
  datatype GraphSearchMethod = BFS | DFS

  /** The `method` argument: one of the enum's members, or any other value,
      which the loop rejects with ValueError. */
  datatype SearchArgument = Member(m: GraphSearchMethod) | NonMember

  /** ValueError("Invalid graph search method"). */
  datatype InvalidSearchMethod = InvalidSearchMethod

  /** A deque item {"id": ..., "path": ...}: a node still to visit and the
      path that led to it, not including the node itself. */
  datatype QueueItem = QueueItem(id: Node, path: seq<Node>)

  /** The items appended for the out-neighbours of x, reached along `path`
      followed by x, in neighbour order. */
  function Successors(g: Graph, x: Node, path: seq<Node>): (items: seq<QueueItem>)
    requires x in g.adj
    ensures |items| == OutDegree(g, x)
    ensures forall i :: 0 <= i < |items| ==> items[i] == QueueItem(g.adj[x][i].target, path + [x])
    ensures forall v :: v in Ids(items) <==> IsEdge(g, x, v)
  {
    seq(|g.adj[x]|, i requires 0 <= i < |g.adj[x]| => QueueItem(g.adj[x][i].target, path + [x]))
  }

  /** The nodes the items of the deque name. */
  function Ids(queue: seq<QueueItem>): set<Node>
  {
    set i | 0 <= i < |queue| :: queue[i].id
  }

  /** t can be reached from s along at least one edge. */
  ghost predicate ReachableByEdges(g: Graph, s: Node, t: Node)
  {
    exists p :: IsWalkFromTo(g, p, s, t) && |p| >= 2
  }

  /** The sinks reachable from `start` along at least one edge: the key set
      the traversal is meant to return, whatever its order. */
  ghost function LeafSet(g: Graph, start: Node): set<Node>
  {
    set v | v in g.adj && OutDegree(g, v) == 0 && ReachableByEdges(g, start, v)
  }

  /** An item's path, extended by its node, is a walk from the start. */
  ghost predicate ItemOk(g: Graph, start: Node, item: QueueItem)
  {
    IsWalkFromTo(g, item.path + [item.id], start, item.id)
  }

  ghost predicate QueueOk(g: Graph, start: Node, queue: seq<QueueItem>)
  {
    forall i :: 0 <= i < |queue| ==> ItemOk(g, start, queue[i])
  }

  /** Every out-neighbour of a visited node is visited or waiting in the deque. */
  ghost predicate Closed(g: Graph, visited: set<Node>, queue: seq<QueueItem>)
    requires visited <= g.adj.Keys
  {
    forall v | v in visited :: forall i | 0 <= i < |g.adj[v]| ::
      g.adj[v][i].target in visited || g.adj[v][i].target in Ids(queue)
  }

  /** The recorded leaves are exactly the visited sinks other than the start,
      each with a walk of at least one edge from the start. */
  ghost predicate LeavesOk(g: Graph, start: Node, visited: set<Node>, leafs: map<Node, seq<Node>>)
    requires visited <= g.adj.Keys
  {
    (forall k | k in leafs ::
      k in visited && k != start && OutDegree(g, k) == 0
      && IsWalkFromTo(g, leafs[k], start, k) && |leafs[k]| >= 2)
    && forall v | v in visited :: v != start && OutDegree(g, v) == 0 ==> v in leafs
  }

  /** The nodes taken off the deque and visited, in order: no repeats, and
      together with the start exactly the visited set, each one reachable
      from the start. */
  ghost predicate ProcessedOk(g: Graph, start: Node, visited: set<Node>, processed: seq<Node>)
  {
    (forall i, j :: 0 <= i < j < |processed| ==> processed[i] != processed[j])
    && (forall v :: v in visited <==> v == start || v in processed)
    && (forall i :: 0 <= i < |processed| ==> processed[i] != start && Reachable(g, start, processed[i]))
  }

  /** The loop invariant of find_related_leafs. */
  ghost predicate Traversing(g: Graph, start: Node, queue: seq<QueueItem>, visited: set<Node>,
                             leafs: map<Node, seq<Node>>, processed: seq<Node>)
  {
    Valid(g) && start in visited && visited <= g.adj.Keys
    && QueueOk(g, start, queue) && Closed(g, visited, queue)
    && LeavesOk(g, start, visited, leafs) && ProcessedOk(g, start, visited, processed)
  }

  /** The items pushed for a node reached along a walk are walks themselves. */
  lemma SuccessorsOk(g: Graph, start: Node, x: Node, path: seq<Node>)
    requires Valid(g) && x in g.adj && IsWalkFromTo(g, path + [x], start, x)
    ensures QueueOk(g, start, Successors(g, x, path))
    ensures forall i | 0 <= i < |g.adj[x]| :: g.adj[x][i].target in Ids(Successors(g, x, path))
  {
    var items := Successors(g, x, path);
    forall i | 0 <= i < |items| ensures ItemOk(g, start, items[i]) {
      var p := path + [x];
      var t := g.adj[x][i].target;
      assert Neighbors(g, x)[i] == t;
      var q := p + [t];
      assert items[i].path + [items[i].id] == q;
      assert IsWalk(g, q) by {
        forall k | 0 <= k < |q| - 1 ensures IsEdge(g, q[k], q[k + 1]) {
          if k < |p| - 1 {
            assert q[k] == p[k] && q[k + 1] == p[k + 1];
          }
        }
      }
    }
  }

  /** Taking the front item off the deque (popleft) leaves the other items. */
  lemma PopFrontOk(g: Graph, start: Node, queue: seq<QueueItem>)
    requires queue != [] && QueueOk(g, start, queue)
    ensures ItemOk(g, start, queue[0]) && QueueOk(g, start, queue[1..])
    ensures Ids(queue) <= Ids(queue[1..]) + {queue[0].id}
  {
    var rest := queue[1..];
    assert forall i :: 0 <= i < |rest| ==> rest[i] == queue[i + 1];
    forall v | v in Ids(queue) ensures v in Ids(rest) + {queue[0].id} {
      var i :| 0 <= i < |queue| && queue[i].id == v;
      if i > 0 {
        assert rest[i - 1].id == v;
      }
    }
  }

  /** Taking the back item off the deque (pop) leaves the other items. */
  lemma PopBackOk(g: Graph, start: Node, queue: seq<QueueItem>)
    requires queue != [] && QueueOk(g, start, queue)
    ensures ItemOk(g, start, queue[|queue| - 1]) && QueueOk(g, start, queue[..|queue| - 1])
    ensures Ids(queue) <= Ids(queue[..|queue| - 1]) + {queue[|queue| - 1].id}
  {
    var rest := queue[..|queue| - 1];
    assert forall i :: 0 <= i < |rest| ==> rest[i] == queue[i];
    forall v | v in Ids(queue) ensures v in Ids(rest) + {queue[|queue| - 1].id} {
      var i :| 0 <= i < |queue| && queue[i].id == v;
      if i < |rest| {
        assert rest[i].id == v;
      }
    }
  }

  /** Appending items keeps the old ids and adds the new ones. */
  lemma IdsAppend(queue: seq<QueueItem>, items: seq<QueueItem>)
    ensures Ids(queue + items) == Ids(queue) + Ids(items)
  {
    var q := queue + items;
    forall v | v in Ids(q) ensures v in Ids(queue) + Ids(items) {
      var i :| 0 <= i < |q| && q[i].id == v;
      if i < |queue| {
        assert queue[i].id == v;
      } else {
        assert items[i - |queue|].id == v;
      }
    }
    forall v | v in Ids(queue) + Ids(items) ensures v in Ids(q) {
      if v in Ids(queue) {
        var i :| 0 <= i < |queue| && queue[i].id == v;
        assert q[i].id == v;
      } else {
        var i :| 0 <= i < |items| && items[i].id == v;
        assert q[|queue| + i].id == v;
      }
    }
  }

  /** Once the deque is empty, the visited set is closed under out-edges, so
      every walk from the start ends at a visited node. */
  lemma {:induction false} ReachedIsVisited(g: Graph, start: Node, visited: set<Node>, p: seq<Node>)
    requires visited <= g.adj.Keys && start in visited && Closed(g, visited, [])
    ensures IsWalk(g, p) && p[0] == start ==> p[|p| - 1] in visited
    decreases |p|
  {
    if IsWalk(g, p) && p[0] == start && |p| > 1 {
      var q := p[..|p| - 1];
      assert IsWalk(g, q) by {
        assert forall i :: 0 <= i < |q| ==> q[i] == p[i];
      }
      ReachedIsVisited(g, start, visited, q);
      var u, v := p[|p| - 2], p[|p| - 1];
      assert IsEdge(g, u, v);
      var i :| 0 <= i < |Neighbors(g, u)| && Neighbors(g, u)[i] == v;
      assert g.adj[u][i].target == v;
    }
  }

  /** A walk of at least one edge from the start shows that the start has an
      out-edge. */
  lemma LeavesStart(g: Graph, start: Node, p: seq<Node>)
    requires |p| >= 2 && IsWalk(g, p) && p[0] == start
    ensures OutDegree(g, start) > 0
  {
    assert IsEdge(g, p[0], p[1]);
  }

  /** Every node of a walk from the start that takes at least one edge is
      reachable from the start. */
  lemma WalkReaches(g: Graph, start: Node, item: QueueItem)
    requires Valid(g) && ItemOk(g, start, item)
    ensures item.id in g.adj && Reachable(g, start, item.id)
    ensures |item.path + [item.id]| >= 2 ==> ReachableByEdges(g, start, item.id)
  {
    WalkNodes(g, item.path + [item.id]);
  }

  /** When the deque runs empty, the recorded keys are exactly LeafSet. */
  lemma FinishedLeaves(g: Graph, start: Node, visited: set<Node>, leafs: map<Node, seq<Node>>,
                       processed: seq<Node>)
    requires Traversing(g, start, [], visited, leafs, processed)
    ensures leafs.Keys == LeafSet(g, start)
    ensures forall v :: v in processed <==> v != start && Reachable(g, start, v)
  {
    forall v | v in LeafSet(g, start) ensures v in leafs {
      var p :| IsWalkFromTo(g, p, start, v) && |p| >= 2;
      ReachedIsVisited(g, start, visited, p);
      LeavesStart(g, start, p);
    }
    forall v | v in leafs ensures v in LeafSet(g, start) {
      assert IsWalkFromTo(g, leafs[v], start, v) && |leafs[v]| >= 2;
    }
    forall v | v != start && Reachable(g, start, v) ensures v in processed {
      var p :| IsWalkFromTo(g, p, start, v);
      ReachedIsVisited(g, start, visited, p);
    }
  }

  /** A start without out-edges reaches no node along an edge. */
  lemma SinkHasNoLeaves(g: Graph, start: Node)
    requires start in g.adj && OutDegree(g, start) == 0
    ensures LeafSet(g, start) == {}
  {
    forall v | v in LeafSet(g, start) ensures false {
      var p :| IsWalkFromTo(g, p, start, v) && |p| >= 2;
      LeavesStart(g, start, p);
    }
  }

  /** Visiting a fresh node x: it joins the visited set and the processed
      order, and is recorded when it is a sink. */
  lemma VisitOk(g: Graph, start: Node, queue: seq<QueueItem>, visited: set<Node>,
                leafs: map<Node, seq<Node>>, processed: seq<Node>, current: QueueItem)
    requires Traversing(g, start, queue, visited, leafs, processed)
    requires ItemOk(g, start, current) && current.id !in visited
    ensures current.id in g.adj
    ensures ProcessedOk(g, start, visited + {current.id}, processed + [current.id])
    ensures OutDegree(g, current.id) == 0 ==>
              LeavesOk(g, start, visited + {current.id},
                       leafs[current.id := current.path + [current.id]])
    ensures OutDegree(g, current.id) > 0 ==> LeavesOk(g, start, visited + {current.id}, leafs)
  {
    var x := current.id;
    WalkReaches(g, start, current);
    var processed' := processed + [x];
    assert forall i :: 0 <= i < |processed| ==> processed'[i] == processed[i];
  }

  /** The deque after a fresh non-sink x was visited and its out-neighbours
      were pushed is again closed and made of walks. */
  lemma PushedOk(g: Graph, start: Node, queue: seq<QueueItem>, rest: seq<QueueItem>,
                 visited: set<Node>, current: QueueItem)
    requires Valid(g) && visited <= g.adj.Keys
    requires ItemOk(g, start, current) && current.id in g.adj
    requires QueueOk(g, start, rest) && Closed(g, visited, queue)
    requires Ids(queue) <= Ids(rest) + {current.id}
    ensures QueueOk(g, start, rest + Successors(g, current.id, current.path))
    ensures Closed(g, visited + {current.id}, rest + Successors(g, current.id, current.path))
  {
    var x := current.id;
    var items := Successors(g, x, current.path);
    SuccessorsOk(g, start, x, current.path);
    IdsAppend(rest, items);
    var q := rest + items;
    forall i | 0 <= i < |q| ensures ItemOk(g, start, q[i]) {
      if i >= |rest| {
        assert q[i] == items[i - |rest|];
      }
    }
  }

  /** Visiting a sink pushes nothing: the deque without the popped item is
      still closed for the grown visited set. */
  lemma SinkOk(g: Graph, queue: seq<QueueItem>, rest: seq<QueueItem>, visited: set<Node>, x: Node)
    requires visited <= g.adj.Keys && x in g.adj && OutDegree(g, x) == 0
    requires Closed(g, visited, queue) && Ids(queue) <= Ids(rest) + {x}
    ensures Closed(g, visited + {x}, rest)
  {
  }

  /** A popped item whose node was visited already is dropped. */
  lemma SkipOk(g: Graph, queue: seq<QueueItem>, rest: seq<QueueItem>, visited: set<Node>, x: Node)
    requires visited <= g.adj.Keys && x in visited
    requires Closed(g, visited, queue) && Ids(queue) <= Ids(rest) + {x}
    ensures Closed(g, visited, rest)
  {
  }

  /** v is the node the traversal visits first: the first out-neighbour of
      the start other than the start itself for BFS, the last one for DFS. */
  ghost predicate FirstVisit(g: Graph, start: Node, m: GraphSearchMethod, v: Node)
    requires start in g.adj
  {
    v != start
    && exists i :: 0 <= i < |g.adj[start]| && g.adj[start][i].target == v
         && (m.BFS? ==> forall j :: 0 <= j < i ==> g.adj[start][j].target == start)
         && (m.DFS? ==> forall j :: i < j < |g.adj[start]| ==> g.adj[start][j].target == start)
  }

  /** The id of the first item that does not name `start`, if any. */
  function FirstOther(items: seq<QueueItem>, start: Node): Option<Node>
  {
    if items == [] then None
    else if items[0].id == start then FirstOther(items[1..], start)
    else Some(items[0].id)
  }

  /** The id of the last item that does not name `start`, if any. */
  function LastOther(items: seq<QueueItem>, start: Node): Option<Node>
  {
    if items == [] then None
    else if items[|items| - 1].id == start then LastOther(items[..|items| - 1], start)
    else Some(items[|items| - 1].id)
  }

  /** The node other than `start` that the given order pops first. */
  function NextOther(m: GraphSearchMethod, items: seq<QueueItem>, start: Node): Option<Node>
  {
    match m
    case BFS => FirstOther(items, start)
    case DFS => LastOther(items, start)
  }

  lemma {:induction false} FirstOtherFound(items: seq<QueueItem>, start: Node, v: Node)
    requires FirstOther(items, start) == Some(v)
    ensures v != start
    ensures exists i :: 0 <= i < |items| && items[i].id == v && forall j :: 0 <= j < i ==> items[j].id == start
  {
    if items[0].id == start {
      FirstOtherFound(items[1..], start, v);
      var i :| 0 <= i < |items[1..]| && items[1..][i].id == v && forall j :: 0 <= j < i ==> items[1..][j].id == start;
      assert items[i + 1].id == v;
      assert forall j :: 0 <= j < i + 1 ==> items[j].id == start by {
        forall j | 0 <= j < i + 1 ensures items[j].id == start {
          if j > 0 { assert items[j] == items[1..][j - 1]; }
        }
      }
    } else {
      assert items[0].id == v;
    }
  }

  lemma {:induction false} LastOtherFound(items: seq<QueueItem>, start: Node, v: Node)
    requires LastOther(items, start) == Some(v)
    ensures v != start
    ensures exists i :: 0 <= i < |items| && items[i].id == v && forall j :: i < j < |items| ==> items[j].id == start
  {
    var n := |items| - 1;
    if items[n].id == start {
      var front := items[..n];
      LastOtherFound(front, start, v);
      var i :| 0 <= i < |front| && front[i].id == v && forall j :: i < j < |front| ==> front[j].id == start;
      assert items[i].id == v;
      assert forall j :: i < j < |items| ==> items[j].id == start by {
        forall j | i < j < |items| ensures items[j].id == start {
          if j < n { assert items[j] == front[j]; }
        }
      }
    } else {
      assert items[n].id == v;
    }
  }

  /** What the order pops first among the start's successors is the node
      FirstVisit names. */
  lemma NextOtherIsFirstVisit(g: Graph, start: Node, m: GraphSearchMethod, v: Node)
    requires start in g.adj && NextOther(m, Successors(g, start, []), start) == Some(v)
    ensures FirstVisit(g, start, m, v)
  {
    var items := Successors(g, start, []);
    if m.BFS? {
      FirstOtherFound(items, start, v);
    } else {
      LastOtherFound(items, start, v);
    }
  }

  /** What popleft (BFS) or pop (DFS) takes off the deque. */
  ghost predicate TakenBy(m: GraphSearchMethod, queue: seq<QueueItem>, current: QueueItem, rest: seq<QueueItem>)
  {
    queue != []
    && (m.BFS? ==> current == queue[0] && rest == queue[1..])
    && (m.DFS? ==> current == queue[|queue| - 1] && rest == queue[..|queue| - 1])
  }

  /** The ghost bookkeeping behind the first-visit promise: before the first
      visit the deque still pops the same first non-start node as the
      initial one; after it, that node is the first processed. */
  ghost predicate FirstTracked(start: Node, init: seq<QueueItem>, m: GraphSearchMethod,
                               queue: seq<QueueItem>, processed: seq<Node>)
  {
    if processed == [] then NextOther(m, queue, start) == NextOther(m, init, start)
    else NextOther(m, init, start) == Some(processed[0])
  }

  /** Popping an already visited node: before the first visit that node can
      only be the start. */
  lemma FirstSkip(g: Graph, start: Node, init: seq<QueueItem>, m: GraphSearchMethod,
                  queue: seq<QueueItem>, processed: seq<Node>, visited: set<Node>,
                  current: QueueItem, rest: seq<QueueItem>)
    requires FirstTracked(start, init, m, queue, processed) && TakenBy(m, queue, current, rest)
    requires ProcessedOk(g, start, visited, processed) && current.id in visited
    ensures FirstTracked(start, init, m, rest, processed)
  {
    if processed == [] {
      assert current.id == start;
    }
  }

  /** Visiting a node: if it is the first, it is the one the order pops
      first among the start's successors. */
  lemma FirstVisited(start: Node, init: seq<QueueItem>, m: GraphSearchMethod,
                     queue: seq<QueueItem>, processed: seq<Node>, visited: set<Node>,
                     current: QueueItem, rest: seq<QueueItem>, queue1: seq<QueueItem>)
    requires FirstTracked(start, init, m, queue, processed) && TakenBy(m, queue, current, rest)
    requires start in visited && current.id !in visited
    ensures FirstTracked(start, init, m, queue1, processed + [current.id])
  {
  }

  /** find_related_leafs(G, company_id, method). The error is raised only
      once the loop runs, that is, when the start has out-neighbours. */
  method FindRelatedLeafs(g: Graph, companyId: Node, searchMethod: SearchArgument)
    returns (r: Result<map<Node, seq<Node>>, InvalidSearchMethod>, ghost processed: seq<Node>)
    requires Valid(g) && companyId in g.adj
    ensures r.Err? <==> searchMethod.NonMember? && OutDegree(g, companyId) > 0
    ensures r.Ok? ==> r.value.Keys == LeafSet(g, companyId)
    ensures r.Ok? ==> forall k | k in r.value ::
              OutDegree(g, k) == 0 && k != companyId && IsWalkFromTo(g, r.value[k], companyId, k)
    ensures r.Ok? ==> forall i, j :: 0 <= i < j < |processed| ==> processed[i] != processed[j]
    ensures r.Ok? ==> forall v :: v in processed <==> v != companyId && Reachable(g, companyId, v)
    ensures OutDegree(g, companyId) == 0 ==> r == Ok(map[])
    ensures r.Ok? && searchMethod.Member? && processed != [] ==>
              FirstVisit(g, companyId, searchMethod.m, processed[0])
  {
    var relatedLeafsWithPath: map<Node, seq<Node>> := map[];
    var queue := Successors(g, companyId, []);
    var visited := {companyId};
    processed := [];
    ghost var init := queue;
    SuccessorsOk(g, companyId, companyId, []);
    assert Closed(g, visited, queue);
    while queue != []
      invariant Traversing(g, companyId, queue, visited, relatedLeafsWithPath, processed)
      invariant searchMethod.NonMember? ==> |queue| == OutDegree(g, companyId)
      invariant searchMethod.Member? ==>
                  FirstTracked(companyId, init, searchMethod.m, queue, processed)
      decreases |g.adj.Keys - visited|, |queue|
    {
      var current: QueueItem;
      var rest: seq<QueueItem>;
      if searchMethod.Member? && searchMethod.m.BFS? {
        PopFrontOk(g, companyId, queue);
        current, rest := queue[0], queue[1..];
      } else if searchMethod.Member? && searchMethod.m.DFS? {
        PopBackOk(g, companyId, queue);
        current, rest := queue[|queue| - 1], queue[..|queue| - 1];
      } else {
        return Err(InvalidSearchMethod), processed;
      }
      var currentId := current.id;
      assert TakenBy(searchMethod.m, queue, current, rest);
      if currentId in visited {
        SkipOk(g, queue, rest, visited, currentId);
        FirstSkip(g, companyId, init, searchMethod.m, queue, processed, visited, current, rest);
        queue := rest;
      } else {
        ghost var popped := queue;
        VisitOk(g, companyId, queue, visited, relatedLeafsWithPath, processed, current);
        FewerOutside(g.adj.Keys, visited, currentId);
        if OutDegree(g, currentId) == 0 {
          SinkOk(g, queue, rest, visited, currentId);
          relatedLeafsWithPath := relatedLeafsWithPath[currentId := current.path + [currentId]];
          queue := rest;
        } else {
          PushedOk(g, companyId, queue, rest, visited, current);
          queue := PushNeighbors(g, rest, currentId, current.path);
        }
        FirstVisited(companyId, init, searchMethod.m, popped, processed, visited, current, rest, queue);
        visited := visited + {currentId};
        processed := processed + [currentId];
      }
    }
    FinishedLeaves(g, companyId, visited, relatedLeafsWithPath, processed);
    if OutDegree(g, companyId) == 0 {
      SinkHasNoLeaves(g, companyId);
    }
    if searchMethod.Member? && processed != [] {
      NextOtherIsFirstVisit(g, companyId, searchMethod.m, processed[0]);
    }
    return Ok(relatedLeafsWithPath), processed;
  }

  /** The inner `for neighbor in G.neighbors(current_id)` loop: one item per
      out-neighbour, appended at the back in neighbour order. */
  method PushNeighbors(g: Graph, queue0: seq<QueueItem>, x: Node, path: seq<Node>)
    returns (queue: seq<QueueItem>)
    requires x in g.adj
    ensures queue == queue0 + Successors(g, x, path)
  {
    queue := queue0;
    var neighbors := Neighbors(g, x);
    for j := 0 to |neighbors|
      invariant queue == queue0 + Successors(g, x, path)[..j]
    {
      queue := queue + [QueueItem(neighbors[j], path + [x])];
      assert Successors(g, x, path)[..j + 1] == Successors(g, x, path)[..j] + [QueueItem(neighbors[j], path + [x])];
    }
  }

  /** What find_related_leafs_compare reports, without its printed text:
      both results, whether it warns that the leaf sets differ, the common
      leaves whose paths differ, and whether all common paths matched. */
  datatype Comparison = Comparison(bfs: map<Node, seq<Node>>, dfs: map<Node, seq<Node>>,
                                   leafSetsDiffer: bool, mismatched: set<Node>, allMatched: bool)

  /** find_related_leafs_compare(G, company_id). */
  method FindRelatedLeafsCompare(g: Graph, companyId: Node) returns (c: Comparison)
    requires Valid(g) && companyId in g.adj
    ensures c.bfs.Keys == LeafSet(g, companyId) && c.dfs.Keys == LeafSet(g, companyId)
    ensures forall k | k in c.bfs :: IsWalkFromTo(g, c.bfs[k], companyId, k)
    ensures forall k | k in c.dfs :: IsWalkFromTo(g, c.dfs[k], companyId, k)
    ensures c.leafSetsDiffer <==> c.bfs.Keys != c.dfs.Keys || |c.bfs| != |c.dfs|
    ensures !c.leafSetsDiffer
    ensures forall k :: k in c.mismatched <==> k in c.bfs && k in c.dfs && c.bfs[k] != c.dfs[k]
    ensures c.allMatched <==> c.mismatched == {}
  {
    var bfsResult, _ := FindRelatedLeafs(g, companyId, Member(BFS));
    var dfsResult, _ := FindRelatedLeafs(g, companyId, Member(DFS));
    var bfs, dfs := bfsResult.value, dfsResult.value;
    var difference := (bfs.Keys - dfs.Keys) + (dfs.Keys - bfs.Keys);
    var differ := difference != {} || |bfs| != |dfs|;
    assert difference == {} <==> bfs.Keys == dfs.Keys;

    var mismatched, allMatched := ComparePaths(bfs, dfs);
    c := Comparison(bfs, dfs, differ, mismatched, allMatched);
  }

  /** The loop over bfs_result.items() that clears all_matched: it reports
      every leaf found by both searches along different paths. */
  method ComparePaths(bfs: map<Node, seq<Node>>, dfs: map<Node, seq<Node>>)
    returns (mismatched: set<Node>, allMatched: bool)
    ensures forall k :: k in mismatched <==> k in bfs && k in dfs && bfs[k] != dfs[k]
    ensures allMatched <==> mismatched == {}
  {
    allMatched := true;
    mismatched := {};
    var remaining := bfs.Keys;
    while remaining != {}
      invariant remaining <= bfs.Keys
      invariant forall k :: k in mismatched <==>
                  k in bfs.Keys - remaining && k in dfs && bfs[k] != dfs[k]
      invariant allMatched <==> mismatched == {}
      decreases |remaining|
    {
      var leafId :| leafId in remaining;
      if leafId in dfs && bfs[leafId] != dfs[leafId] {
        mismatched := mismatched + {leafId};
        allMatched := false;
      }
      remaining := remaining - {leafId};
    }
  }
}
