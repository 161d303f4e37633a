/**
  Reachability over an adjacency list, and the invariant of Tarjan's
  algorithm with the steps that keep it.
*/
module DepReach {
  import opened DepGraph

  /** An adjacency list: each node's successors, in order. */
  type Graph = map<string, seq<string>>

  /** Every successor is itself a node of the graph. */
  ghost predicate Closed(adj: Graph) {
    forall v, i :: v in adj && 0 <= i < |adj[v]| ==> adj[v][i] in adj
  }

  // ---------------------------------------------------------------------------
  // Reachability

  /** A walk along edges of `adj`: each node is followed by one of its successors. */
  ghost predicate IsPath(adj: Graph, p: seq<string>)
    decreases |p|
  {
    |p| >= 1 && (|p| == 1 || (p[0] in adj && p[1] in adj[p[0]] && IsPath(adj, p[1..])))
  }

  ghost predicate Reaches(adj: Graph, u: string, w: string) {
    exists p :: IsPath(adj, p) && p[0] == u && p[|p| - 1] == w
  }

  /** Every pair of members reaches each other. */
  ghost predicate StronglyConnected(adj: Graph, c: seq<string>) {
    forall x, y :: x in c && y in c ==> Reaches(adj, x, y)
  }

  lemma ReachesRefl(adj: Graph, u: string)
    ensures Reaches(adj, u, u)
  {
    assert IsPath(adj, [u]);
  }

  lemma ReachesStep(adj: Graph, u: string, w: string, x: string)
    requires u in adj && w in adj[u] && Reaches(adj, w, x)
    ensures Reaches(adj, u, x)
  {
    var p :| IsPath(adj, p) && p[0] == w && p[|p| - 1] == x;
    var q := [u] + p;
    assert q[1..] == p;
    assert IsPath(adj, q);
  }

  /** Two walks that meet make one walk. */
  lemma {:induction false} PathJoin(adj: Graph, p: seq<string>, q: seq<string>)
    requires IsPath(adj, p) && IsPath(adj, q) && p[|p| - 1] == q[0]
    ensures IsPath(adj, p + q[1..]) && (p + q[1..])[0] == p[0] && (p + q[1..])[|p| + |q| - 2] == q[|q| - 1]
    decreases |p|
  {
    if |p| == 1 {
      assert p + q[1..] == q;
    } else {
      PathJoin(adj, p[1..], q);
      assert (p + q[1..])[1..] == p[1..] + q[1..];
    }
  }

  lemma ReachesTrans(adj: Graph, u: string, w: string, x: string)
    requires Reaches(adj, u, w) && Reaches(adj, w, x)
    ensures Reaches(adj, u, x)
  {
    var p :| IsPath(adj, p) && p[0] == u && p[|p| - 1] == w;
    var q :| IsPath(adj, q) && q[0] == w && q[|q| - 1] == x;
    PathJoin(adj, p, q);
  }

  /**
    The root argument of Tarjan's algorithm. In a stack segment that starts at
    `stack[k]` and is ordered by index, let every later node reach a stack node
    whose index lies between `stack[k]`'s and its own. Then every node of the
    segment reaches `stack[k]`.
  */
  lemma {:induction false} ReachesSegmentRoot(adj: Graph, stack: seq<string>, k: nat, j: nat,
                                              indices: map<string, nat>, lowlinks: map<string, nat>,
                                              wit: map<string, string>, pos: map<string, nat>)
    requires k <= j < |stack|
    requires Sorted(stack, indices)
    requires forall a :: k < a < |stack| ==>
      && stack[a] in lowlinks && stack[a] in wit
      && wit[stack[a]] in pos && pos[wit[stack[a]]] < |stack| && stack[pos[wit[stack[a]]]] == wit[stack[a]]
      && indices[stack[k]] <= lowlinks[stack[a]] < indices[stack[a]]
      && indices[wit[stack[a]]] == lowlinks[stack[a]]
      && Reaches(adj, stack[a], wit[stack[a]])
    ensures Reaches(adj, stack[j], stack[k])
    decreases j
  {
    if j == k {
      ReachesRefl(adj, stack[k]);
    } else {
      var x := wit[stack[j]];
      var p := pos[x];
      assert p < k ==> Earlier(indices, stack[p], stack[k]);
      assert j <= p ==> j == p || Earlier(indices, stack[j], stack[p]);
      ReachesSegmentRoot(adj, stack, k, p, indices, lowlinks, wit, pos);
      ReachesTrans(adj, stack[j], x, stack[k]);
    }
  }

  // ---------------------------------------------------------------------------
  // Tarjan's algorithm: the invariant, in three parts over the state's values

  /** No node belongs to both sequences. */
  ghost predicate Disjoint(a: seq<string>, b: seq<string>) {
    forall x :: x in a ==> x !in b
  }

  /** Indices number the visited nodes 0, 1, ... in discovery order; no lowlink exceeds its index. */
  ghost predicate Numbered(adj: Graph, index: nat, indices: map<string, nat>, lowlinks: map<string, nat>,
                           visited: seq<string>) {
    && indices.Keys <= adj.Keys
    && lowlinks.Keys == indices.Keys
    && |visited| == index
    && (forall x :: x in indices ==> indices[x] < index && visited[indices[x]] == x && lowlinks[x] <= indices[x])
  }

  /** `onStack` holds exactly the stack's nodes, all visited; `pos` says where each one sits. */
  ghost predicate OnStack(stack: seq<string>, onStack: set<string>, pos: map<string, nat>,
                          indices: map<string, nat>) {
    && (forall a :: 0 <= a < |stack| ==> stack[a] in onStack && stack[a] in indices)
    && (forall x :: x in onStack ==> x in pos && pos[x] < |stack| && stack[pos[x]] == x)
  }

  /** `x` was numbered before `y`. */
  ghost predicate Earlier(indices: map<string, nat>, x: string, y: string) {
    x in indices && y in indices && indices[x] < indices[y]
  }

  /** The stack holds visited nodes in increasing index order. */
  ghost predicate Sorted(stack: seq<string>, indices: map<string, nat>) {
    && (forall a :: 0 <= a < |stack| ==> stack[a] in indices)
    && (forall a, b {:trigger Earlier(indices, stack[a], stack[b])} ::
          0 <= a < b < |stack| ==> Earlier(indices, stack[a], stack[b]))
  }

  /** Every stack node reaches a stack node whose index is its lowlink. */
  ghost predicate Witnessed(adj: Graph, onStack: set<string>, indices: map<string, nat>,
                            lowlinks: map<string, nat>, lowWitness: map<string, string>) {
    && onStack <= indices.Keys && onStack <= lowlinks.Keys
    && (forall x {:trigger lowWitness[x]} {:trigger x in lowWitness} :: x in onStack ==>
          && x in lowWitness && lowWitness[x] in onStack && lowWitness[x] in indices
          && indices[lowWitness[x]] == lowlinks[x] && Reaches(adj, x, lowWitness[x]))
  }

  /** The stack part of the invariant. */
  ghost predicate StackOrdered(adj: Graph, stack: seq<string>, onStack: set<string>, pos: map<string, nat>,
                               indices: map<string, nat>, lowlinks: map<string, nat>,
                               lowWitness: map<string, string>) {
    OnStack(stack, onStack, pos, indices) && Sorted(stack, indices)
    && Witnessed(adj, onStack, indices, lowlinks, lowWitness)
  }

  /**
    Every reported component has at least two nodes, none twice, all
    reaching each other; components are pairwise disjoint and their nodes
    (`reported`) have left the stack.
  */
  ghost predicate ComponentsReported(adj: Graph, sccs: seq<seq<string>>, reported: set<string>,
                                     onStack: set<string>, indices: map<string, nat>) {
    && reported <= indices.Keys && reported !! onStack
    && (forall a :: 0 <= a < |sccs| ==> |sccs[a]| >= 2 && Distinct(sccs[a]) && StronglyConnected(adj, sccs[a]))
    && (forall a, x :: 0 <= a < |sccs| && x in sccs[a] ==> x in reported)
    && (forall a, b :: 0 <= a < b < |sccs| ==> Disjoint(sccs[a], sccs[b]))
  }

  // The steps of the algorithm, each shown to keep the invariant.

  lemma NumberKeepsNumbered(adj: Graph, index: nat, indices: map<string, nat>, lowlinks: map<string, nat>,
                            visited: seq<string>, v: string)
    requires Numbered(adj, index, indices, lowlinks, visited) && v in adj && v !in indices
    ensures Numbered(adj, index + 1, indices[v := index], lowlinks[v := index], visited + [v])
  {
  }

  /** Numbering a node that is not on the stack keeps the stack part of the invariant. */
  lemma NumberKeepsStack(adj: Graph, stack: seq<string>, onStack: set<string>, pos: map<string, nat>,
                         indices: map<string, nat>, lowlinks: map<string, nat>, lowWitness: map<string, string>,
                         v: string, index: nat)
    requires StackOrdered(adj, stack, onStack, pos, indices, lowlinks, lowWitness) && v !in indices
    ensures StackOrdered(adj, stack, onStack, pos, indices[v := index], lowlinks[v := index], lowWitness)
  {
    var indices' := indices[v := index];
    forall a, b | 0 <= a < b < |stack|
      ensures Earlier(indices', stack[a], stack[b])
    {
      assert Earlier(indices, stack[a], stack[b]);
    }
  }

  lemma NumberKeepsComponents(adj: Graph, sccs: seq<seq<string>>, reported: set<string>, onStack: set<string>,
                              indices: map<string, nat>, v: string, index: nat)
    requires ComponentsReported(adj, sccs, reported, onStack, indices) && v !in indices
    ensures ComponentsReported(adj, sccs, reported, onStack, indices[v := index])
  {
  }

  /** Pushing the most recently numbered node, whose lowlink is its index, keeps the stack part. */
  lemma PushKeepsStack(adj: Graph, stack: seq<string>, onStack: set<string>, pos: map<string, nat>,
                       indices: map<string, nat>, lowlinks: map<string, nat>, lowWitness: map<string, string>,
                       v: string)
    requires StackOrdered(adj, stack, onStack, pos, indices, lowlinks, lowWitness)
    requires v in indices && v in lowlinks && lowlinks[v] == indices[v] && v !in onStack
    requires forall x :: x in indices && x != v ==> indices[x] < indices[v]
    ensures StackOrdered(adj, stack + [v], onStack + {v}, pos[v := |stack|], indices, lowlinks, lowWitness[v := v])
  {
    PushOnStack(stack, onStack, pos, indices, v);
    PushSorted(stack, onStack, pos, indices, v);
    ReachesRefl(adj, v);
  }

  lemma PushOnStack(stack: seq<string>, onStack: set<string>, pos: map<string, nat>, indices: map<string, nat>,
                    v: string)
    requires OnStack(stack, onStack, pos, indices) && v in indices && v !in onStack
    ensures OnStack(stack + [v], onStack + {v}, pos[v := |stack|], indices)
  {
    var stack' := stack + [v];
    assert forall a :: 0 <= a < |stack| ==> stack'[a] == stack[a];
  }

  lemma PushSorted(stack: seq<string>, onStack: set<string>, pos: map<string, nat>, indices: map<string, nat>,
                   v: string)
    requires OnStack(stack, onStack, pos, indices) && Sorted(stack, indices) && v in indices && v !in onStack
    requires forall x :: x in indices && x != v ==> indices[x] < indices[v]
    ensures Sorted(stack + [v], indices)
  {
    var stack' := stack + [v];
    forall a, b | 0 <= a < b < |stack'|
      ensures Earlier(indices, stack'[a], stack'[b])
    {
      if b < |stack| {
        assert Earlier(indices, stack[a], stack[b]);
      } else {
        assert stack[a] in onStack;
      }
    }
  }

  lemma PushKeepsComponents(adj: Graph, sccs: seq<seq<string>>, reported: set<string>, onStack: set<string>,
                            indices: map<string, nat>, v: string)
    requires ComponentsReported(adj, sccs, reported, onStack, indices) && v !in reported
    ensures ComponentsReported(adj, sccs, reported, onStack + {v}, indices)
  {
  }

  lemma LowerKeepsNumbered(adj: Graph, index: nat, indices: map<string, nat>, lowlinks: map<string, nat>,
                           visited: seq<string>, v: string, low: nat)
    requires Numbered(adj, index, indices, lowlinks, visited) && v in indices && low <= lowlinks[v]
    ensures Numbered(adj, index, indices, lowlinks[v := low], visited)
  {
  }

  lemma LowerKeepsStack(adj: Graph, stack: seq<string>, onStack: set<string>, pos: map<string, nat>,
                        indices: map<string, nat>, lowlinks: map<string, nat>, lowWitness: map<string, string>,
                        v: string, w: string)
    requires StackOrdered(adj, stack, onStack, pos, indices, lowlinks, lowWitness)
    requires v in onStack && w in onStack && Reaches(adj, v, w)
    ensures StackOrdered(adj, stack, onStack, pos, indices, lowlinks[v := indices[w]], lowWitness[v := w])
  {
    LowerWitnessed(adj, onStack, indices, lowlinks, lowWitness, v, w);
  }

  lemma LowerWitnessed(adj: Graph, onStack: set<string>, indices: map<string, nat>, lowlinks: map<string, nat>,
                       lowWitness: map<string, string>, v: string, w: string)
    requires Witnessed(adj, onStack, indices, lowlinks, lowWitness)
    requires v in onStack && w in onStack && Reaches(adj, v, w)
    ensures Witnessed(adj, onStack, indices, lowlinks[v := indices[w]], lowWitness[v := w])
  {
  }

  /** Popping the top keeps the stack invariant, because every witness lies at or below its node. */
  lemma PopKeepsStack(adj: Graph, stack: seq<string>, onStack: set<string>, pos: map<string, nat>,
                      indices: map<string, nat>, lowlinks: map<string, nat>, lowWitness: map<string, string>)
    requires StackOrdered(adj, stack, onStack, pos, indices, lowlinks, lowWitness) && stack != []
    requires forall x :: x in onStack ==> lowlinks[x] <= indices[x]
    ensures var n := |stack| - 1;
      StackOrdered(adj, stack[..n], onStack - {stack[n]}, pos, indices, lowlinks, lowWitness)
  {
    var n := |stack| - 1;
    PopBelowTop(stack, onStack, pos, indices);
    PopOnStack(stack, onStack, pos, indices);
    PopSorted(stack, indices);
    PopWitnessed(adj, onStack, indices, lowlinks, lowWitness, stack[n]);
  }

  /** Every other stack node sits below the top and has a smaller index. */
  lemma PopBelowTop(stack: seq<string>, onStack: set<string>, pos: map<string, nat>, indices: map<string, nat>)
    requires OnStack(stack, onStack, pos, indices) && Sorted(stack, indices) && stack != []
    ensures forall x :: x in onStack && x != stack[|stack| - 1] ==>
      pos[x] < |stack| - 1 && indices[x] < indices[stack[|stack| - 1]]
  {
    var n := |stack| - 1;
    forall x | x in onStack && x != stack[n]
      ensures pos[x] < n && indices[x] < indices[stack[n]]
    {
      assert Earlier(indices, stack[pos[x]], stack[n]);
    }
  }

  lemma PopOnStack(stack: seq<string>, onStack: set<string>, pos: map<string, nat>, indices: map<string, nat>)
    requires OnStack(stack, onStack, pos, indices) && Sorted(stack, indices) && stack != []
    requires forall x :: x in onStack && x != stack[|stack| - 1] ==> pos[x] < |stack| - 1
    ensures var n := |stack| - 1; OnStack(stack[..n], onStack - {stack[n]}, pos, indices)
  {
    var n := |stack| - 1;
    forall a | 0 <= a < n
      ensures stack[a] != stack[n]
    {
      assert Earlier(indices, stack[a], stack[n]);
    }
  }

  lemma PopSorted(stack: seq<string>, indices: map<string, nat>)
    requires Sorted(stack, indices) && stack != []
    ensures Sorted(stack[..|stack| - 1], indices)
  {
  }

  lemma PopWitnessed(adj: Graph, onStack: set<string>, indices: map<string, nat>, lowlinks: map<string, nat>,
                     lowWitness: map<string, string>, w: string)
    requires Witnessed(adj, onStack, indices, lowlinks, lowWitness)
    requires forall x :: x in onStack ==> lowlinks[x] <= indices[x]
    requires w in onStack && forall x :: x in onStack && x != w ==> indices[x] < indices[w]
    ensures Witnessed(adj, onStack - {w}, indices, lowlinks, lowWitness)
  {
    forall x | x in onStack - {w}
      ensures lowWitness[x] != w
    {
      assert indices[lowWitness[x]] <= indices[x];
    }
  }

  lemma PopKeepsComponents(adj: Graph, sccs: seq<seq<string>>, reported: set<string>, onStack: set<string>,
                           indices: map<string, nat>, w: string)
    requires ComponentsReported(adj, sccs, reported, onStack, indices)
    ensures ComponentsReported(adj, sccs, reported, onStack - {w}, indices)
  {
  }

  lemma ReportKeepsComponents(adj: Graph, sccs: seq<seq<string>>, reported: set<string>, onStack: set<string>,
                              indices: map<string, nat>, scc: seq<string>)
    requires ComponentsReported(adj, sccs, reported, onStack, indices)
    requires |scc| >= 2 && Distinct(scc) && StronglyConnected(adj, scc)
    requires forall x :: x in scc ==> x in indices && x !in onStack && x !in reported
    ensures ComponentsReported(adj, sccs + [scc], reported + (set x | x in scc), onStack, indices)
  {
    var sccs' := sccs + [scc];
    assert forall a :: 0 <= a < |sccs| ==> sccs'[a] == sccs[a];
  }

  /**
    The nodes popped off a stack segment that starts at `s[k]`, in pop order,
    when every node of the segment and `s[k]` reach each other: they are
    distinct, strongly connected, and none of them stays below the segment.
  */
  lemma PoppedSegment(adj: Graph, s: seq<string>, k: nat, scc: seq<string>, indices: map<string, nat>)
    requires k < |s| && |scc| == |s| - k
    requires forall j :: 0 <= j < |scc| ==> scc[j] == s[|s| - 1 - j]
    requires Sorted(s, indices)
    requires forall j :: k <= j < |s| ==> Reaches(adj, s[k], s[j]) && Reaches(adj, s[j], s[k])
    ensures Distinct(scc) && StronglyConnected(adj, scc)
    ensures forall x :: x in scc ==> x in indices && x in s && x !in s[..k]
  {
    forall x | x in scc
      ensures x in s[k..] && x !in s[..k]
    {
      var j :| 0 <= j < |scc| && scc[j] == x;
      var m := |s| - 1 - j;
      assert x == s[m];
      forall i | 0 <= i < k
        ensures s[i] != x
      {
        assert Earlier(indices, s[i], s[m]);
      }
    }
    forall x, y | x in scc && y in scc
      ensures Reaches(adj, x, y)
    {
      ReachesTrans(adj, x, s[k], y);
    }
    forall a, b | 0 <= a < b < |scc|
      ensures scc[a] != scc[b]
    {
      assert Earlier(indices, s[|s| - 1 - b], s[|s| - 1 - a]);
    }
  }


  // ---------------------------------------------------------------------------
  // What one call of `strongconnect` does to the state it finds

  /** The part of Tarjan's state that a call of `strongconnect` changes. */
  datatype Snapshot = Snapshot(index: nat, stack: seq<string>, indices: map<string, nat>,
                               lowlinks: map<string, nat>, sccs: seq<seq<string>>)

  /**
    `q` extends `p`: nodes keep their indices and lowlinks, nodes indexed since
    got indices from `p.index` on, the stack keeps its old part below any new
    nodes (also indexed from `p.index` on), and components are only added.
  */
  ghost predicate Grown(p: Snapshot, q: Snapshot) {
    && p.index <= q.index
    && (forall x :: x in p.indices ==> x in q.indices && q.indices[x] == p.indices[x])
    && (forall x :: x in q.indices && x !in p.indices ==> q.indices[x] >= p.index)
    && (forall x :: x in p.lowlinks ==> x in q.lowlinks && q.lowlinks[x] == p.lowlinks[x])
    && |q.stack| >= |p.stack| && q.stack[..|p.stack|] == p.stack
    && (forall j :: |p.stack| <= j < |q.stack| ==> q.stack[j] in q.indices && q.indices[q.stack[j]] >= p.index)
    && |q.sccs| >= |p.sccs| && q.sccs[..|p.sccs|] == p.sccs
  }

  /** Every stack node from position `from` on has a lowlink of at least `low` and below its own index. */
  ghost predicate ChainAbove(stack: seq<string>, lowlinks: map<string, nat>, indices: map<string, nat>,
                             from: nat, low: nat) {
    forall j :: from <= j < |stack| ==>
      stack[j] in lowlinks && stack[j] in indices && low <= lowlinks[stack[j]] < indices[stack[j]]
  }

  lemma GrownTrans(p: Snapshot, q: Snapshot, r: Snapshot)
    requires Grown(p, q) && Grown(q, r)
    requires forall j :: 0 <= j < |q.stack| ==> q.stack[j] in q.indices
    ensures Grown(p, r)
  {
    assert r.stack[..|p.stack|] == r.stack[..|q.stack|][..|p.stack|];
    assert r.sccs[..|p.sccs|] == r.sccs[..|q.sccs|][..|p.sccs|];
    forall j | |p.stack| <= j < |q.stack|
      ensures r.stack[j] == q.stack[j]
    {
      assert r.stack[j] == r.stack[..|q.stack|][j];
    }
  }

  /** Pushing a fresh node `v` with the next index. */
  lemma GrownPush(p: Snapshot, v: string)
    requires v !in p.indices && v !in p.lowlinks
    ensures Grown(p, Snapshot(p.index + 1, p.stack + [v], p.indices[v := p.index],
                              p.lowlinks[v := p.index], p.sccs))
  {
    var q := Snapshot(p.index + 1, p.stack + [v], p.indices[v := p.index], p.lowlinks[v := p.index], p.sccs);
    assert q.stack[..|p.stack|] == p.stack;
  }

  /** Lowering the lowlink of a node indexed since `p`. */
  lemma GrownLower(p: Snapshot, q: Snapshot, v: string, low: nat)
    requires Grown(p, q) && v !in p.lowlinks
    ensures Grown(p, Snapshot(q.index, q.stack, q.indices, q.lowlinks[v := low], q.sccs))
  {
  }

  /** Cutting the stack back to `p`'s and adding components. */
  lemma GrownCut(p: Snapshot, q: Snapshot, r: Snapshot)
    requires Grown(p, q)
    requires r.index == q.index && r.indices == q.indices && r.lowlinks == q.lowlinks
    requires r.stack == q.stack[..|p.stack|] && |r.sccs| >= |q.sccs| && r.sccs[..|q.sccs|] == q.sccs
    ensures Grown(p, r)
  {
    assert r.sccs[..|p.sccs|] == r.sccs[..|q.sccs|][..|p.sccs|];
  }

  /** The chain above `from` after a call that kept `p`'s stack and pushed nodes with lowlinks of at least `lowW`. */
  lemma ChainJoin(p: Snapshot, q: Snapshot, from: nat, lowP: nat, lowW: nat)
    requires Grown(p, q) && from <= |p.stack|
    requires ChainAbove(p.stack, p.lowlinks, p.indices, from, lowP)
    requires ChainAbove(q.stack, q.lowlinks, q.indices, |p.stack|, lowW)
    ensures ChainAbove(q.stack, q.lowlinks, q.indices, from, if lowW < lowP then lowW else lowP)
  {
    forall j | from <= j < |p.stack|
      ensures q.stack[j] == p.stack[j]
    {
      assert q.stack[j] == q.stack[..|p.stack|][j];
    }
  }

  /** Changing the lowlink of a node that is not in the chain. */
  lemma ChainLower(stack: seq<string>, lowlinks: map<string, nat>, indices: map<string, nat>, from: nat,
                   low: nat, v: string, vlow: nat)
    requires ChainAbove(stack, lowlinks, indices, from, low)
    requires forall j :: from <= j < |stack| ==> stack[j] != v
    ensures ChainAbove(stack, lowlinks[v := vlow], indices, from, low)
  {
  }

  /** The chain reaches one position lower when the node there qualifies. */
  lemma ChainExtend(stack: seq<string>, lowlinks: map<string, nat>, indices: map<string, nat>, k: nat, low: nat)
    requires ChainAbove(stack, lowlinks, indices, k + 1, low) && k < |stack|
    requires stack[k] in lowlinks && stack[k] in indices && low <= lowlinks[stack[k]] < indices[stack[k]]
    ensures ChainAbove(stack, lowlinks, indices, k, low)
  {
  }

  /**
    When every stack node was numbered from `n0` on, so was every lowlink
    witness, and no node on the stack has a lowlink below `n0`.
  */
  lemma LowlinksFloor(adj: Graph, stack: seq<string>, onStack: set<string>, pos: map<string, nat>,
                      indices: map<string, nat>, lowlinks: map<string, nat>, lowWitness: map<string, string>, n0: nat)
    requires OnStack(stack, onStack, pos, indices) && Witnessed(adj, onStack, indices, lowlinks, lowWitness)
    requires forall j :: 0 <= j < |stack| ==> indices[stack[j]] >= n0
    ensures forall x :: x in onStack ==> lowlinks[x] >= n0
  {
    forall x | x in onStack
      ensures lowlinks[x] >= n0
    {
      assert indices[stack[pos[lowWitness[x]]]] >= n0;
    }
  }
}
