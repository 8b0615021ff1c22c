/** The hand-written single-source Dijkstra of task3.py: a heap of
    (distance, node) entries, a distances table and a predecessor table
    updated during relaxation, stale heap entries skipped, and the path
    rebuilt by walking predecessors back from the target. */
module ShortestPath {
  import opened Wrappers
  import opened Graphs

  /** A recorded distance: float('inf') until the node is first reached. */
  datatype Distance = Infinity | Finite(d: nat)

  /** `x < dist`, with every number below infinity. */
  predicate Below(x: nat, dist: Distance)
  {
    dist.Infinity? || x < dist.d
  }

  /** `x > dist`, with no number above infinity. */
  predicate Exceeds(x: nat, dist: Distance)
  {
    dist.Finite? && x > dist.d
  }

  /** A heap entry: the tuple (distance, node). */
  datatype Entry = Entry(distance: nat, node: Node)

  /** Python's order on strings: lexicographic by code point. */
  predicate StrLess(a: string, b: string)
    decreases |a|
  {
    |b| > 0 && (|a| == 0 || a[0] < b[0] || (a[0] == b[0] && StrLess(a[1..], b[1..])))
  }

  /** Python's order on (distance, node) tuples: distance first, ties broken by node id. */
  predicate EntryLess(x: Entry, y: Entry)
  {
    x.distance < y.distance || (x.distance == y.distance && StrLess(x.node, y.node))
  }

  lemma {:induction false} StrLessIrreflexive(a: string)
    ensures !StrLess(a, a)
    decreases |a|
  {
    if |a| > 0 {
      StrLessIrreflexive(a[1..]);
    }
  }

  lemma {:induction false} StrLessTransitive(a: string, b: string, c: string)
    ensures StrLess(a, b) && StrLess(b, c) ==> StrLess(a, c)
    decreases |a|
  {
    if |a| > 0 && |b| > 0 && |c| > 0 && a[0] == b[0] && b[0] == c[0] {
      StrLessTransitive(a[1..], b[1..], c[1..]);
    }
  }

  lemma EntryLessTransitive(x: Entry, y: Entry, z: Entry)
    ensures EntryLess(x, y) && EntryLess(y, z) ==> EntryLess(x, z)
  {
    StrLessTransitive(x.node, y.node, z.node);
  }

  /** heapq.heappop: removes and returns the smallest entry in tuple order. */
  method HeapPop(queue: seq<Entry>) returns (smallest: Entry, rest: seq<Entry>)
    requires queue != []
    ensures smallest in queue && |rest| == |queue| - 1
    ensures multiset(rest)[smallest] + 1 == multiset(queue)[smallest]
    ensures forall e :: e != smallest ==> multiset(rest)[e] == multiset(queue)[e]
    ensures forall e :: e in rest ==> e in queue
    ensures forall e :: e in queue && e != smallest ==> e in rest
    ensures forall e :: e in queue ==> !EntryLess(e, smallest)
  {
    var k := SmallestIndex(queue);
    smallest := queue[k];
    rest := queue[..k] + queue[k + 1..];
    RemoveAt(queue, k, rest);
  }

  /** The position of an entry no other entry is smaller than. */
  method SmallestIndex(queue: seq<Entry>) returns (k: nat)
    requires queue != []
    ensures k < |queue|
    ensures forall j :: 0 <= j < |queue| ==> !EntryLess(queue[j], queue[k])
  {
    k := 0;
    StrLessIrreflexive(queue[0].node);
    for i := 1 to |queue|
      invariant k < i
      invariant forall j :: 0 <= j < i ==> !EntryLess(queue[j], queue[k])
    {
      if EntryLess(queue[i], queue[k]) {
        forall j | 0 <= j < i ensures !EntryLess(queue[j], queue[i]) {
          EntryLessTransitive(queue[j], queue[i], queue[k]);
        }
        StrLessIrreflexive(queue[i].node);
        k := i;
      }
    }
  }

  /** Removing position k takes exactly one copy of queue[k] out. */
  lemma RemoveAt(queue: seq<Entry>, k: nat, rest: seq<Entry>)
    requires k < |queue| && rest == queue[..k] + queue[k + 1..]
    ensures multiset(queue) == multiset(rest) + multiset{queue[k]}
    ensures forall e :: e in rest ==> e in queue
    ensures forall e :: e in queue && e != queue[k] ==> e in rest
  {
    assert queue == queue[..k] + [queue[k]] + queue[k + 1..];
    forall e | e in queue && e != queue[k] ensures e in rest {
      var j :| 0 <= j < |queue| && queue[j] == e;
      if j < k {
        assert rest[j] == e;
      } else {
        assert rest[j - 1] == e;
      }
    }
  }

  /** The reversal of a sequence (list.reverse()). */
  function Reversed<T>(s: seq<T>): (r: seq<T>)
    ensures |r| == |s|
    ensures forall i :: 0 <= i < |s| ==> r[i] == s[|s| - 1 - i]
  {
    if s == [] then [] else [s[|s| - 1]] + Reversed(s[..|s| - 1])
  }

  /** A shortest path and its total weight. */
  datatype WeightedPath = WeightedPath(path: seq<Node>, weight: nat)

  /** The GraphPathNotFound exception, with the endpoints its message names. */
  datatype GraphPathNotFound = GraphPathNotFound(source: Node, target: Node)

  // ---------------------------------------------------------------------
  // The state invariants of the search. `done` holds the nodes whose heap
  // entry was popped while current (and whose edges were relaxed), `rank`
  // the order in which they were, and `last` the distance popped last.
  // ---------------------------------------------------------------------

  /** Both tables cover exactly the nodes of G; the source keeps distance 0
      and no predecessor. */
  ghost predicate Tables(g: Graph, source: Node, dist: map<Node, Distance>, prev: map<Node, Option<Node>>)
  {
    dist.Keys == g.adj.Keys && prev.Keys == g.adj.Keys && source in g.adj
    && dist[source] == Finite(0) && prev[source] == None
  }

  /** Every heap entry names a reached node and is no smaller than its
      recorded distance nor than the last popped distance; an entry of a
      settled node is stale. */
  ghost predicate QueueSound(g: Graph, queue: seq<Entry>, dist: map<Node, Distance>, done: set<Node>, last: nat)
  {
    forall e | e in queue ::
      e.node in g.adj && e.node in dist && dist[e.node].Finite?
      && dist[e.node].d <= e.distance && last <= e.distance
      && (e.node in done ==> dist[e.node].d < e.distance)
  }

  /** The entry carrying a node's current distance is in the heap at most once. */
  ghost predicate CurrentEntriesUnique(queue: seq<Entry>, dist: map<Node, Distance>)
  {
    forall v | v in dist && dist[v].Finite? :: multiset(queue)[Entry(dist[v].d, v)] <= 1
  }

  /** Every reached node not yet settled has its current entry in the heap. */
  ghost predicate QueueComplete(queue: seq<Entry>, dist: map<Node, Distance>, done: set<Node>)
  {
    forall v | v in dist && v !in done && dist[v].Finite? :: Entry(dist[v].d, v) in queue
  }

  /** Settled nodes are reached, and no farther than the last popped distance. */
  ghost predicate Settled(dist: map<Node, Distance>, done: set<Node>, last: nat)
  {
    forall u | u in done :: u in dist && dist[u].Finite? && dist[u].d <= last
  }

  /** The first n out-edges of u are relaxed: their targets are no farther
      than u's distance plus the edge weight. */
  ghost predicate RelaxedUpTo(g: Graph, dist: map<Node, Distance>, u: Node, n: nat)
  {
    u in g.adj && u in dist && dist[u].Finite? && n <= |g.adj[u]|
    && forall i | 0 <= i < n ::
         g.adj[u][i].target in dist && dist[g.adj[u][i].target].Finite?
         && dist[g.adj[u][i].target].d <= dist[u].d + WeightOf(g.adj[u][i])
  }

  ghost predicate Relaxed(g: Graph, dist: map<Node, Distance>, done: set<Node>)
  {
    forall u | u in done :: u in g.adj && RelaxedUpTo(g, dist, u, |g.adj[u]|)
  }

  /** A settled node's distance is no more than the weight of any walk to it. */
  ghost predicate Optimal(g: Graph, source: Node, dist: map<Node, Distance>, done: set<Node>)
  {
    forall u | u in done ::
      u in dist && dist[u].Finite?
      && forall p | IsWalkFromTo(g, p, source, u) :: dist[u].d <= PathWeight(g, p)
  }

  /** A predecessor is a settled node with an edge to its successor that
      accounts for the successor's distance, settled before it; every
      reached node but the source has one. */
  ghost predicate PredecessorsOk(g: Graph, source: Node, dist: map<Node, Distance>, prev: map<Node, Option<Node>>,
                                 done: set<Node>, rank: map<Node, nat>)
  {
    forall v | v in prev && v in dist ::
      (prev[v].Some? ==>
        prev[v].value in done && prev[v].value in rank && prev[v].value in dist
        && IsEdge(g, prev[v].value, v) && dist[prev[v].value].Finite? && dist[v].Finite?
        && dist[prev[v].value].d + EdgeWeight(g, prev[v].value, v) <= dist[v].d
        && (v in done ==> v in rank && rank[prev[v].value] < rank[v]))
      && (v != source && dist[v].Finite? ==> prev[v].Some?)
  }

  ghost predicate Ranked(g: Graph, done: set<Node>, rank: map<Node, nat>, clock: nat)
  {
    done <= g.adj.Keys && rank.Keys == done && forall u | u in rank :: rank[u] < clock
  }

  /** When the last edge of a walk from the source leaves a settled node,
      the walk's end is reached and no farther than the walk's weight. */
  lemma StepFromSettled(g: Graph, source: Node, dist: map<Node, Distance>, done: set<Node>, p: seq<Node>)
    requires Valid(g) && dist.Keys == g.adj.Keys
    requires Relaxed(g, dist, done) && Optimal(g, source, dist, done)
    requires IsWalk(g, p) && |p| >= 2 && p[0] == source && p[|p| - 2] in done
    ensures p[|p| - 1] in dist && dist[p[|p| - 1]].Finite? && dist[p[|p| - 1]].d <= PathWeight(g, p)
  {
    var q, z, y := p[..|p| - 1], p[|p| - 2], p[|p| - 1];
    assert IsWalkFromTo(g, q, source, z) by {
      assert forall i :: 0 <= i < |q| ==> q[i] == p[i];
    }
    assert dist[z].d <= PathWeight(g, q);
    assert IsEdge(g, z, y);
    var i :| 0 <= i < |Neighbors(g, z)| && Neighbors(g, z)[i] == y;
    EdgeWeightAt(g, z, i);
    assert RelaxedUpTo(g, dist, z, |g.adj[z]|);
    assert dist[y].d <= dist[z].d + EdgeWeight(g, z, y);
  }

  /** The first index of p whose node lies outside `inside`. */
  lemma {:induction false} FirstOutside(p: seq<Node>, inside: set<Node>) returns (k: nat)
    requires exists i :: 0 <= i < |p| && p[i] !in inside
    ensures k < |p| && p[k] !in inside
    ensures forall i :: 0 <= i < k ==> p[i] in inside
    decreases |p|
  {
    if p[0] !in inside {
      return 0;
    }
    var i :| 0 <= i < |p| && p[i] !in inside;
    assert p[1..][i - 1] == p[i];
    var j := FirstOutside(p[1..], inside);
    k := j + 1;
    forall i | 0 < i < k ensures p[i] in inside {
      assert p[i] == p[1..][i - 1];
    }
  }

  /** Along a walk from the source, the first node that is not settled is
      reached, and its distance is at most the weight of the walk up to it. */
  lemma FirstOpen(g: Graph, source: Node, dist: map<Node, Distance>, done: set<Node>, p: seq<Node>)
    returns (k: nat, prefix: seq<Node>)
    requires Valid(g) && dist.Keys == g.adj.Keys && source in dist && dist[source] == Finite(0)
    requires Relaxed(g, dist, done) && Optimal(g, source, dist, done)
    requires IsWalk(g, p) && p[0] == source
    requires exists i :: 0 <= i < |p| && p[i] !in done
    ensures k < |p| && prefix == p[..k + 1]
    ensures p[k] !in done && p[k] in dist && dist[p[k]].Finite?
    ensures IsWalk(g, prefix) && dist[p[k]].d <= PathWeight(g, prefix)
  {
    k := FirstOutside(p, done);
    prefix := p[..k + 1];
    PrefixWeight(g, p, k + 1);
    if k == 0 {
      assert |prefix| == 1 && prefix[0] == source;
    } else {
      assert prefix[k - 1] == p[k - 1] && prefix[k] == p[k];
      StepFromSettled(g, source, dist, done, prefix);
    }
  }

  /** The popped current entry of an unsettled node is no larger than the
      weight of any walk from the source to that node. */
  lemma SettleOptimal(g: Graph, source: Node, queue: seq<Entry>, dist: map<Node, Distance>, done: set<Node>,
                      e: Entry, p: seq<Node>)
    requires Valid(g) && dist.Keys == g.adj.Keys && source in dist && dist[source] == Finite(0)
    requires QueueComplete(queue, dist, done) && Relaxed(g, dist, done) && Optimal(g, source, dist, done)
    requires forall x :: x in queue ==> !EntryLess(x, e)
    requires e.node !in done
    requires IsWalkFromTo(g, p, source, e.node)
    ensures e.distance <= PathWeight(g, p)
  {
    assert p[|p| - 1] !in done;
    var k, prefix := FirstOpen(g, source, dist, done, p);
    var x := p[k];
    assert Entry(dist[x].d, x) in queue;
    PrefixWeight(g, p, k + 1);
  }

  /** Once the heap is empty, every node on a walk from the source is settled. */
  lemma {:induction false} ReachedIsSettled(g: Graph, source: Node, dist: map<Node, Distance>, done: set<Node>, p: seq<Node>)
    requires Valid(g) && dist.Keys == g.adj.Keys && source in dist && dist[source] == Finite(0)
    requires QueueComplete([], dist, done) && Relaxed(g, dist, done)
    ensures IsWalk(g, p) && p[0] == source ==> p[|p| - 1] in done
    decreases |p|
  {
    if IsWalk(g, p) && p[0] == source && |p| > 1 {
      var q := p[..|p| - 1];
      assert IsWalk(g, q) by {
        assert forall i :: 0 <= i < |q| ==> q[i] == p[i];
      }
      ReachedIsSettled(g, source, dist, done, q);
      var z, y := p[|p| - 2], p[|p| - 1];
      assert z == q[|q| - 1];
      assert IsEdge(g, z, y);
      var i :| 0 <= i < |Neighbors(g, z)| && Neighbors(g, z)[i] == y;
      assert g.adj[z][i].target == y;
    }
  }

  /** The invariants of the heap. */
  ghost predicate HeapOk(g: Graph, queue: seq<Entry>, dist: map<Node, Distance>, done: set<Node>, last: nat)
  {
    QueueSound(g, queue, dist, done, last) && CurrentEntriesUnique(queue, dist)
    && QueueComplete(queue, dist, done) && Settled(dist, done, last)
  }

  /** The invariants of the distance and predecessor tables. */
  ghost predicate TablesOk(g: Graph, source: Node, dist: map<Node, Distance>, prev: map<Node, Option<Node>>,
                           done: set<Node>, rank: map<Node, nat>, clock: nat)
  {
    Valid(g) && Tables(g, source, dist, prev) && Optimal(g, source, dist, done)
    && PredecessorsOk(g, source, dist, prev, done, rank) && Ranked(g, done, rank, clock)
  }

  /** Every settled node other than u has all its out-edges relaxed. */
  ghost predicate RelaxedExcept(g: Graph, dist: map<Node, Distance>, done: set<Node>, u: Node)
  {
    forall x | x in done && x != u :: x in g.adj && RelaxedUpTo(g, dist, x, |g.adj[x]|)
  }

  /** The invariant of the main loop. */
  ghost predicate Searching(g: Graph, source: Node, queue: seq<Entry>, dist: map<Node, Distance>, prev: map<Node, Option<Node>>,
                            done: set<Node>, rank: map<Node, nat>, clock: nat, last: nat)
  {
    TablesOk(g, source, dist, prev, done, rank, clock) && HeapOk(g, queue, dist, done, last) && Relaxed(g, dist, done)
  }

  /** The invariant of the relaxation loop over the out-edges of the node u
      just settled: the first j of them are relaxed. */
  ghost predicate Expanding(g: Graph, source: Node, queue: seq<Entry>, dist: map<Node, Distance>, prev: map<Node, Option<Node>>,
                            done: set<Node>, rank: map<Node, nat>, clock: nat, last: nat, u: Node, j: nat)
  {
    TablesOk(g, source, dist, prev, done, rank, clock) && HeapOk(g, queue, dist, done, last)
    && u in g.adj && j <= |g.adj[u]| && u in done && u in dist && dist[u] == Finite(last)
    && RelaxedExcept(g, dist, done, u) && RelaxedUpTo(g, dist, u, j)
  }

  /** What heapq.heappop guarantees about the entry it returned. */
  ghost predicate Popped(queue: seq<Entry>, current: Entry, rest: seq<Entry>)
  {
    current in queue && |rest| == |queue| - 1
    && multiset(rest)[current] + 1 == multiset(queue)[current]
    && (forall e :: e != current ==> multiset(rest)[e] == multiset(queue)[e])
    && (forall e :: e in rest ==> e in queue)
    && (forall e :: e in queue && e != current ==> e in rest)
    && (forall e :: e in queue ==> !EntryLess(e, current))
  }

  /** Skipping a stale entry keeps the main invariant. */
  lemma SkipStale(g: Graph, source: Node, queue: seq<Entry>, dist: map<Node, Distance>, prev: map<Node, Option<Node>>,
                  done: set<Node>, rank: map<Node, nat>, clock: nat, last: nat, current: Entry, rest: seq<Entry>)
    requires Searching(g, source, queue, dist, prev, done, rank, clock, last)
    requires Popped(queue, current, rest) && Exceeds(current.distance, dist[current.node])
    ensures Searching(g, source, rest, dist, prev, done, rank, clock, current.distance)
  {
  }

  /** Popping the current entry of a node settles it: the node was not
      settled before, its distance is optimal, and the relaxation loop can
      start. */
  lemma Settle(g: Graph, source: Node, queue: seq<Entry>, dist: map<Node, Distance>, prev: map<Node, Option<Node>>,
               done: set<Node>, rank: map<Node, nat>, clock: nat, last: nat, current: Entry, rest: seq<Entry>)
    requires Searching(g, source, queue, dist, prev, done, rank, clock, last)
    requires Popped(queue, current, rest) && !Exceeds(current.distance, dist[current.node])
    ensures current.node in g.adj && current.node !in done
    ensures Expanding(g, source, rest, dist, prev, done + {current.node}, rank[current.node := clock], clock + 1,
                      current.distance, current.node, 0)
  {
    var u := current.node;
    assert dist[u] == Finite(current.distance);
    assert u !in done;
    SettleQueue(g, queue, dist, done, last, current, rest);
    SettleComplete(g, queue, dist, done, last, current, rest);
    assert HeapOk(g, rest, dist, done + {u}, current.distance);
    SettleTables(g, source, queue, dist, prev, done, rank, clock, current);
  }

  /** Settling the node of a popped current entry keeps the tables' invariants. */
  lemma SettleTables(g: Graph, source: Node, queue: seq<Entry>, dist: map<Node, Distance>, prev: map<Node, Option<Node>>,
                     done: set<Node>, rank: map<Node, nat>, clock: nat, current: Entry)
    requires TablesOk(g, source, dist, prev, done, rank, clock) && Relaxed(g, dist, done) && QueueComplete(queue, dist, done)
    requires forall x :: x in queue ==> !EntryLess(x, current)
    requires current.node in dist && current.node !in done && dist[current.node] == Finite(current.distance)
    ensures TablesOk(g, source, dist, prev, done + {current.node}, rank[current.node := clock], clock + 1)
    ensures RelaxedExcept(g, dist, done + {current.node}, current.node)
    ensures RelaxedUpTo(g, dist, current.node, 0)
  {
    SettleOptimalAll(g, source, queue, dist, done, current);
    SettleRanks(g, source, dist, prev, done, rank, clock, current.node);
  }

  /** The node of a popped current entry, once settled, has an optimal distance. */
  lemma SettleOptimalAll(g: Graph, source: Node, queue: seq<Entry>, dist: map<Node, Distance>, done: set<Node>,
                         current: Entry)
    requires Valid(g) && dist.Keys == g.adj.Keys && source in dist && dist[source] == Finite(0)
    requires QueueComplete(queue, dist, done) && Relaxed(g, dist, done) && Optimal(g, source, dist, done)
    requires forall x :: x in queue ==> !EntryLess(x, current)
    requires current.node in dist && current.node !in done && dist[current.node] == Finite(current.distance)
    ensures Optimal(g, source, dist, done + {current.node})
  {
    forall p | IsWalkFromTo(g, p, source, current.node) ensures current.distance <= PathWeight(g, p) {
      SettleOptimal(g, source, queue, dist, done, current, p);
    }
  }

  /** Settling u at the next clock tick keeps predecessors settled earlier
      than their successors. */
  lemma SettleRanks(g: Graph, source: Node, dist: map<Node, Distance>, prev: map<Node, Option<Node>>,
                    done: set<Node>, rank: map<Node, nat>, clock: nat, u: Node)
    requires PredecessorsOk(g, source, dist, prev, done, rank) && Ranked(g, done, rank, clock)
    requires u in g.adj && u !in done
    ensures PredecessorsOk(g, source, dist, prev, done + {u}, rank[u := clock])
    ensures Ranked(g, done + {u}, rank[u := clock], clock + 1)
  {
  }

  /** After popping the current entry of u, the remaining heap is sound for
      the settled set extended by u. */
  lemma SettleQueue(g: Graph, queue: seq<Entry>, dist: map<Node, Distance>, done: set<Node>, last: nat,
                    current: Entry, rest: seq<Entry>)
    requires QueueSound(g, queue, dist, done, last) && CurrentEntriesUnique(queue, dist)
    requires Popped(queue, current, rest) && current.node in dist && dist[current.node] == Finite(current.distance)
    ensures QueueSound(g, rest, dist, done + {current.node}, current.distance)
    ensures CurrentEntriesUnique(rest, dist)
  {
    assert current !in rest;
  }

  /** After popping the current entry of u, every other reached open node
      still has its current entry in the heap, and settled nodes stay within
      the popped distance. */
  lemma SettleComplete(g: Graph, queue: seq<Entry>, dist: map<Node, Distance>, done: set<Node>, last: nat,
                       current: Entry, rest: seq<Entry>)
    requires QueueSound(g, queue, dist, done, last) && QueueComplete(queue, dist, done) && Settled(dist, done, last)
    requires Popped(queue, current, rest) && current.node in dist && dist[current.node] == Finite(current.distance)
    ensures QueueComplete(rest, dist, done + {current.node})
    ensures Settled(dist, done + {current.node}, current.distance)
  {
  }

  /** An improving relaxation of edge j of the settled node u touches no
      settled node, and the heap keeps its invariants once the new entry is
      pushed. */
  lemma RelaxQueue(g: Graph, source: Node, queue: seq<Entry>, dist: map<Node, Distance>, prev: map<Node, Option<Node>>,
                   done: set<Node>, last: nat, u: Node, j: nat, v: Node, nd: nat)
    requires Valid(g) && Tables(g, source, dist, prev) && u in g.adj && j < |g.adj[u]|
    requires QueueSound(g, queue, dist, done, last) && CurrentEntriesUnique(queue, dist)
    requires QueueComplete(queue, dist, done) && Settled(dist, done, last)
    requires v == g.adj[u][j].target && nd == last + WeightOf(g.adj[u][j]) && Below(nd, dist[v])
    ensures v !in done && v in g.adj
    ensures Tables(g, source, dist[v := Finite(nd)], prev[v := Some(u)])
    ensures QueueSound(g, queue + [Entry(nd, v)], dist[v := Finite(nd)], done, last)
    ensures CurrentEntriesUnique(queue + [Entry(nd, v)], dist[v := Finite(nd)])
    ensures QueueComplete(queue + [Entry(nd, v)], dist[v := Finite(nd)], done)
    ensures Settled(dist[v := Finite(nd)], done, last)
  {
    assert v !in done;
    assert Entry(nd, v) !in queue;
  }

  /** An improving relaxation keeps the settled nodes relaxed and optimal,
      and extends u's relaxed prefix. */
  lemma RelaxTables(g: Graph, source: Node, dist: map<Node, Distance>, done: set<Node>, last: nat,
                    u: Node, j: nat, v: Node, nd: nat)
    requires u in g.adj && j < |g.adj[u]| && u in dist && dist[u] == Finite(last)
    requires Settled(dist, done, last) && RelaxedExcept(g, dist, done, u) && RelaxedUpTo(g, dist, u, j)
    requires Optimal(g, source, dist, done)
    requires v == g.adj[u][j].target && v in dist && nd == last + WeightOf(g.adj[u][j]) && Below(nd, dist[v])
    ensures RelaxedExcept(g, dist[v := Finite(nd)], done, u)
    ensures RelaxedUpTo(g, dist[v := Finite(nd)], u, j + 1)
    ensures Optimal(g, source, dist[v := Finite(nd)], done)
  {
    assert v !in done;
  }

  /** An improving relaxation records u as v's predecessor, consistently. */
  lemma RelaxPredecessors(g: Graph, source: Node, dist: map<Node, Distance>, prev: map<Node, Option<Node>>,
                          done: set<Node>, rank: map<Node, nat>, last: nat, u: Node, j: nat, v: Node, nd: nat)
    requires Valid(g) && Tables(g, source, dist, prev) && u in g.adj && j < |g.adj[u]|
    requires u in done && u in rank && dist[u] == Finite(last) && Settled(dist, done, last)
    requires PredecessorsOk(g, source, dist, prev, done, rank)
    requires v == g.adj[u][j].target && nd == last + WeightOf(g.adj[u][j]) && Below(nd, dist[v])
    ensures PredecessorsOk(g, source, dist[v := Finite(nd)], prev[v := Some(u)], done, rank)
  {
    EdgeWeightAt(g, u, j);
    assert v !in done && v != u;
    var dist', prev' := dist[v := Finite(nd)], prev[v := Some(u)];
    forall w | w in prev' && w in dist'
      ensures prev'[w].Some? ==>
        prev'[w].value in done && prev'[w].value in rank && prev'[w].value in dist'
        && IsEdge(g, prev'[w].value, w) && dist'[prev'[w].value].Finite? && dist'[w].Finite?
        && dist'[prev'[w].value].d + EdgeWeight(g, prev'[w].value, w) <= dist'[w].d
        && (w in done ==> w in rank && rank[prev'[w].value] < rank[w])
      ensures w != source && dist'[w].Finite? ==> prev'[w].Some?
    {
      if w == v {
        assert prev'[w] == Some(u) && dist'[u] == dist[u];
      } else {
        assert prev'[w] == prev[w] && dist'[w] == dist[w];
        if prev[w].Some? {
          assert prev[w].value != v;
        }
      }
    }
  }

  /** An edge that does not shorten its target's distance is already relaxed. */
  lemma NoImprovement(g: Graph, dist: map<Node, Distance>, u: Node, j: nat)
    requires RelaxedUpTo(g, dist, u, j) && j < |g.adj[u]| && g.adj[u][j].target in dist
    requires !Below(dist[u].d + WeightOf(g.adj[u][j]), dist[g.adj[u][j].target])
    ensures RelaxedUpTo(g, dist, u, j + 1)
  {
  }

  /** Between dist0/prev0 and dist/prev, every node either kept its
      distance and predecessor or got a strictly smaller distance with
      predecessor u. */
  ghost predicate Lowered(dist0: map<Node, Distance>, prev0: map<Node, Option<Node>>,
                          dist: map<Node, Distance>, prev: map<Node, Option<Node>>, u: Node)
  {
    forall v | v in dist0 ::
      v in dist && v in prev && v in prev0
      && ((dist[v] == dist0[v] && prev[v] == prev0[v])
          || (dist[v].Finite? && Below(dist[v].d, dist0[v]) && prev[v] == Some(u)))
  }

  /** Lowering one more distance, through u, keeps Lowered. */
  lemma LoweredStep(dist0: map<Node, Distance>, prev0: map<Node, Option<Node>>,
                    dist: map<Node, Distance>, prev: map<Node, Option<Node>>, u: Node, v: Node, nd: nat)
    requires Lowered(dist0, prev0, dist, prev, u) && v in dist && Below(nd, dist[v])
    ensures Lowered(dist0, prev0, dist[v := Finite(nd)], prev[v := Some(u)], u)
  {
  }

  /** Settling the node u of the popped current entry, then the loop
      `for neighbor in G.neighbors(u)`: every out-edge that shortens its
      target's distance updates the distance and the predecessor and pushes
      a new heap entry. */
  method ExpandNode(g: Graph, source: Node, queue1: seq<Entry>, current: Entry, queue0: seq<Entry>,
                    dist0: map<Node, Distance>, prev0: map<Node, Option<Node>>,
                    ghost done0: set<Node>, ghost rank0: map<Node, nat>, ghost clock0: nat, ghost last0: nat)
    returns (queue: seq<Entry>, distances: map<Node, Distance>, previousNodes: map<Node, Option<Node>>)
    requires Searching(g, source, queue1, dist0, prev0, done0, rank0, clock0, last0)
    requires Popped(queue1, current, queue0) && !Exceeds(current.distance, dist0[current.node])
    ensures current.node in g.adj && current.node !in done0
    ensures Searching(g, source, queue, distances, previousNodes, done0 + {current.node},
                      rank0[current.node := clock0], clock0 + 1, current.distance)
    ensures Lowered(dist0, prev0, distances, previousNodes, current.node)
  {
    var u, d := current.node, current.distance;
    Settle(g, source, queue1, dist0, prev0, done0, rank0, clock0, last0, current, queue0);
    ghost var done, rank, clock := done0 + {u}, rank0[u := clock0], clock0 + 1;
    queue, distances, previousNodes := queue0, dist0, prev0;
    var edges := g.adj[u];
    for j := 0 to |edges|
      invariant Expanding(g, source, queue, distances, previousNodes, done, rank, clock, d, u, j)
      invariant Lowered(dist0, prev0, distances, previousNodes, u)
    {
      var neighbor := edges[j].target;
      var weight := WeightOf(edges[j]);
      var distance := d + weight;
      if Below(distance, distances[neighbor]) {
        RelaxQueue(g, source, queue, distances, previousNodes, done, d, u, j, neighbor, distance);
        RelaxTables(g, source, distances, done, d, u, j, neighbor, distance);
        RelaxPredecessors(g, source, distances, previousNodes, done, rank, d, u, j, neighbor, distance);
        LoweredStep(dist0, prev0, distances, previousNodes, u, neighbor, distance);
        distances := distances[neighbor := Finite(distance)];
        previousNodes := previousNodes[neighbor := Some(u)];
        queue := queue + [Entry(distance, neighbor)];
      } else {
        NoImprovement(g, distances, u, j);
      }
    }
  }

  /** One turn of the predecessor walk: putting the current node c in front
      of the walk found so far keeps it a walk to the target whose weight,
      plus c's distance, stays within the target's distance. */
  lemma TraceStep(g: Graph, source: Node, target: Node, dist: map<Node, Distance>, prev: map<Node, Option<Node>>,
                  done: set<Node>, rank: map<Node, nat>, path: seq<Node>, c: Node)
    requires Tables(g, source, dist, prev) && PredecessorsOk(g, source, dist, prev, done, rank)
    requires done <= g.adj.Keys && c in done && dist[c].Finite? && target in dist && dist[target].Finite?
    requires path == [] ==> c == target
    requires path != [] ==>
               (path[|path| - 1] in prev && prev[path[|path| - 1]] == Some(c)
                && IsWalkFromTo(g, Reversed(path), path[|path| - 1], target)
                && path[|path| - 1] in dist && dist[path[|path| - 1]].Finite?
                && PathWeight(g, Reversed(path)) + dist[path[|path| - 1]].d <= dist[target].d)
    ensures IsWalkFromTo(g, Reversed(path + [c]), c, target)
    ensures PathWeight(g, Reversed(path + [c])) + dist[c].d <= dist[target].d
  {
    if path != [] {
      var back := Reversed(path);
      PrependWeight(g, c, back);
      assert Reversed(path + [c]) == [c] + back;
    } else {
      assert Reversed(path + [c]) == [c];
    }
  }

  /** The loop `while current_node is not None` and the final reversal:
      following predecessors back from a settled target yields a walk from
      the source whose weight is the target's recorded distance. */
  method ReconstructPath(g: Graph, source: Node, target: Node, distances: map<Node, Distance>,
                         previousNodes: map<Node, Option<Node>>, ghost done: set<Node>, ghost rank: map<Node, nat>)
    returns (path: seq<Node>)
    requires Tables(g, source, distances, previousNodes) && PredecessorsOk(g, source, distances, previousNodes, done, rank)
    requires done <= g.adj.Keys && rank.Keys == done && target in done && distances[target].Finite?
    ensures IsWalkFromTo(g, path, source, target) && PathWeight(g, path) <= distances[target].d
    ensures source == target ==> path == [source]
  {
    path := [];
    var currentNode: Option<Node> := Some(target);
    while currentNode.Some?
      invariant currentNode.Some? ==> currentNode.value in done && distances[currentNode.value].Finite?
      invariant path == [] ==> currentNode == Some(target)
      invariant path != [] ==> path[0] == target && path[|path| - 1] in done
      invariant path != [] ==> distances[path[|path| - 1]].Finite?
      invariant path != [] ==> previousNodes[path[|path| - 1]] == currentNode
      invariant path != [] ==> IsWalkFromTo(g, Reversed(path), path[|path| - 1], target)
      invariant path != [] ==>
                  PathWeight(g, Reversed(path)) + distances[path[|path| - 1]].d <= distances[target].d
      invariant source == target && path != [] ==> path == [target]
      decreases if currentNode.Some? then rank[currentNode.value] + 1 else 0
    {
      var c := currentNode.value;
      TraceStep(g, source, target, distances, previousNodes, done, rank, path, c);
      path := path + [c];
      currentNode := previousNodes[c];
    }
    assert path[|path| - 1] == source;
    if source == target {
      assert Reversed(path) == [source];
    }
    path := Reversed(path);
  }

  /** The main loop of dijkstra_shortest_path: pop the closest entry, skip
      it when stale, otherwise settle its node and relax the node's edges,
      until the heap is empty. */
  method ComputeDistances(g: Graph, source: Node)
    returns (distances: map<Node, Distance>, previousNodes: map<Node, Option<Node>>,
             ghost done: set<Node>, ghost rank: map<Node, nat>, ghost clock: nat, ghost last: nat)
    requires Valid(g) && source in g.adj
    ensures Searching(g, source, [], distances, previousNodes, done, rank, clock, last)
  {
    var queue: seq<Entry> := [Entry(0, source)];
    distances := map n | n in g.adj :: Infinity;
    distances := distances[source := Finite(0)];
    previousNodes := map n | n in g.adj :: None;
    done, rank, clock, last := {}, map[], 0, 0;
    SearchStart(g, source, queue, distances, previousNodes);

    while queue != []
      invariant Searching(g, source, queue, distances, previousNodes, done, rank, clock, last)
      decreases |g.adj.Keys - done|, |queue|
    {
      queue, distances, previousNodes, done, rank, clock, last :=
        SearchStep(g, source, queue, distances, previousNodes, done, rank, clock, last);
    }
  }

  /** Before the first pop: only the source has a finite distance, and the
      heap holds the single entry (0, source). */
  lemma SearchStart(g: Graph, source: Node, queue: seq<Entry>, dist: map<Node, Distance>,
                    prev: map<Node, Option<Node>>)
    requires Valid(g) && source in g.adj
    requires queue == [Entry(0, source)]
    requires dist == (map n | n in g.adj :: Infinity)[source := Finite(0)]
    requires prev == map n | n in g.adj :: None
    ensures Searching(g, source, queue, dist, prev, {}, map[], 0, 0)
  {
  }

  /** One turn of the main loop: pop the smallest entry; skip it when it is
      stale, otherwise settle its node and relax the node's out-edges. */
  method SearchStep(g: Graph, source: Node, queue0: seq<Entry>, dist0: map<Node, Distance>,
                    prev0: map<Node, Option<Node>>, ghost done0: set<Node>, ghost rank0: map<Node, nat>,
                    ghost clock0: nat, ghost last0: nat)
    returns (queue: seq<Entry>, distances: map<Node, Distance>, previousNodes: map<Node, Option<Node>>,
             ghost done: set<Node>, ghost rank: map<Node, nat>, ghost clock: nat, ghost last: nat)
    requires queue0 != []
    requires Searching(g, source, queue0, dist0, prev0, done0, rank0, clock0, last0)
    ensures Searching(g, source, queue, distances, previousNodes, done, rank, clock, last)
    ensures |g.adj.Keys - done| < |g.adj.Keys - done0|
            || (done == done0 && |queue| < |queue0|)
    ensures done == done0 ==> distances == dist0 && previousNodes == prev0
    ensures done != done0 ==>
              exists u :: u !in done0 && done == done0 + {u} && Lowered(dist0, prev0, distances, previousNodes, u)
  {
    var current, rest := HeapPop(queue0);
    assert Popped(queue0, current, rest);
    var u := current.node;
    if Exceeds(current.distance, dist0[u]) {
      SkipStale(g, source, queue0, dist0, prev0, done0, rank0, clock0, last0, current, rest);
      return rest, dist0, prev0, done0, rank0, clock0, current.distance;
    }
    queue, distances, previousNodes :=
      ExpandNode(g, source, queue0, current, rest, dist0, prev0, done0, rank0, clock0, last0);
    FewerOutside(g.adj.Keys, done0, u);
    done, rank, clock, last := done0 + {u}, rank0[u := clock0], clock0 + 1, current.distance;
    assert u in done && done == done0 + {u};
  }

  /** dijkstra_shortest_path(G, source, target). */
  method DijkstraShortestPath(g: Graph, source: Node, target: Node) returns (r: Result<WeightedPath, GraphPathNotFound>)
    requires Valid(g) && source in g.adj && target in g.adj
    ensures r.Ok? <==> Reachable(g, source, target)
    ensures r.Err? ==> r.error == GraphPathNotFound(source, target)
    ensures r.Ok? ==> IsWalkFromTo(g, r.value.path, source, target)
    ensures r.Ok? ==> r.value.weight == PathWeight(g, r.value.path)
    ensures r.Ok? ==> forall p :: IsWalkFromTo(g, p, source, target) ==> r.value.weight <= PathWeight(g, p)
    ensures source == target ==> r == Ok(WeightedPath([source], 0))
  {
    var distances, previousNodes, done, rank, clock, last := ComputeDistances(g, source);
    // The heap is empty: every node reachable from the source is settled.
    if distances[target] == Infinity {
      forall p ensures !IsWalkFromTo(g, p, source, target) {
        ReachedIsSettled(g, source, distances, done, p);
      }
      return Err(GraphPathNotFound(source, target));
    }
    var path := ReconstructPath(g, source, target, distances, previousNodes, done, rank);
    r := Ok(WeightedPath(path, distances[target].d));
  }
}
