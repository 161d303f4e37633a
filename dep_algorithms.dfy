/**
  Import-cycle detection (Tarjan's strongly-connected-components algorithm over
  the import edges between scanned files) and the dead-file filter.
*/
module DepAlgorithms {
  import opened DepGraph
  import opened DepReach

  // ---------------------------------------------------------------------------
  // Building the adjacency list

  /** How many of `imports` name a scanned file. */
  function KnownCount(imports: seq<Import>, files: map<string, FileNode>): nat {
    if imports == [] then 0
    else KnownCount(imports[..|imports| - 1], files) + (if imports[|imports| - 1].path in files then 1 else 0)
  }

  /** Some import naming a scanned file has exactly `k` such imports before it. */
  predicate KnownAt(imports: seq<Import>, files: map<string, FileNode>, k: int) {
    exists i :: 0 <= i < |imports| && imports[i].path in files && KnownCount(imports[..i], files) == k
  }

  /** The import paths that name a scanned file, in import order, once per import (`KnownTargetsInOrder`). */
  function KnownTargets(imports: seq<Import>, files: map<string, FileNode>): (targets: seq<string>)
    ensures |targets| <= |imports|
    ensures forall t :: t in targets ==> t in files && exists i :: 0 <= i < |imports| && imports[i].path == t
    ensures forall i :: 0 <= i < |imports| && imports[i].path in files ==> imports[i].path in targets
  {
    if imports == [] then []
    else
      var init := imports[..|imports| - 1];
      var last := imports[|imports| - 1];
      assert forall i :: 0 <= i < |init| ==> init[i] == imports[i];
      KnownTargets(init, files) + (if last.path in files then [last.path] else [])
  }

  /**
    The edges keep order and multiplicity: import `i`, when it names a scanned
    file, sits at the position counted by the such imports before it ...
  */
  lemma {:induction false} KnownTargetsInOrder(imports: seq<Import>, files: map<string, FileNode>)
    ensures |KnownTargets(imports, files)| == KnownCount(imports, files)
    ensures var targets := KnownTargets(imports, files);
      forall i :: 0 <= i < |imports| && imports[i].path in files ==>
        KnownCount(imports[..i], files) < |targets| && targets[KnownCount(imports[..i], files)] == imports[i].path
  {
    if imports != [] {
      var init := imports[..|imports| - 1];
      KnownTargetsInOrder(init, files);
      var r := KnownTargets(imports, files);
      forall i | 0 <= i < |imports| && imports[i].path in files
        ensures KnownCount(imports[..i], files) < |r| && r[KnownCount(imports[..i], files)] == imports[i].path
      {
        if i < |init| {
          assert init[i] == imports[i] && init[..i] == imports[..i];
        } else {
          assert imports[..i] == init;
        }
      }
    }
  }

  /** ... and every position of the edges is filled that way. */
  lemma {:induction false} KnownTargetsFilled(imports: seq<Import>, files: map<string, FileNode>)
    ensures forall k :: 0 <= k < |KnownTargets(imports, files)| ==> KnownAt(imports, files, k)
  {
    if imports != [] {
      var init := imports[..|imports| - 1];
      KnownTargetsFilled(init, files);
      KnownTargetsInOrder(init, files);
      forall k | 0 <= k < |KnownTargets(imports, files)| ensures KnownAt(imports, files, k) {
        if k < |KnownTargets(init, files)| {
          assert KnownAt(init, files, k);
          var i :| 0 <= i < |init| && init[i].path in files && KnownCount(init[..i], files) == k;
          assert imports[i] == init[i] && imports[..i] == init[..i];
        } else {
          assert imports[..|init|] == init;
        }
      }
    }
  }

  /** The adjacency list of the scanned files: imports of unknown paths are dropped. */
  function Adjacency(files: map<string, FileNode>): (adj: Graph)
    ensures adj.Keys == files.Keys
    ensures Closed(adj)
  {
    map p | p in files :: KnownTargets(files[p].imports, files)
  }

  /** The inner loop of the adjacency build: one file's imports filtered to known files. */
  method KnownTargetsOf(imports: seq<Import>, files: map<string, FileNode>) returns (targets: seq<string>)
    ensures targets == KnownTargets(imports, files)
  {
    targets := [];
    for i := 0 to |imports|
      invariant targets == KnownTargets(imports[..i], files)
    {
      assert imports[..i + 1][..i] == imports[..i];
      if imports[i].path in files {
        targets := targets + [imports[i].path];
      }
    }
    assert imports[..|imports|] == imports;
  }

  /** The adjacency build of `DetectCircularDependencies`, visiting the files in map order. */
  method BuildAdjacency(files: map<string, FileNode>, order: seq<string>) returns (adj: Graph)
    requires Enumerates(order, files)
    ensures adj == Adjacency(files)
  {
    adj := map[];
    for k := 0 to |order|
      invariant forall p :: p in adj <==> p in order[..k]
      invariant forall p :: p in adj ==> p in files && adj[p] == KnownTargets(files[p].imports, files)
    {
      assert order[..k + 1] == order[..k] + [order[k]];
      var targets := KnownTargetsOf(files[order[k]].imports, files);
      adj := adj[order[k] := targets];
    }
    assert order[..|order|] == order;
    SameAdjacency(files, adj);
  }

  /** A map with the files as keys and each file's known targets as its value is the adjacency list. */
  lemma SameAdjacency(files: map<string, FileNode>, adj: Graph)
    requires forall p :: p in adj <==> p in files
    requires forall p :: p in adj ==> adj[p] == KnownTargets(files[p].imports, files)
    ensures adj == Adjacency(files)
  {
    assert adj.Keys == files.Keys;
  }

  // ---------------------------------------------------------------------------
  // Tarjan's algorithm: the closure state and `strongconnect`

  /** The state that `DetectCircularDependencies` shares with its `strongconnect` closure. */
  class Tarjan {
    const adj: Graph
    var index: nat
    var stack: seq<string>
    var onStack: set<string>
    var indices: map<string, nat>
    var lowlinks: map<string, nat>
    var sccs: seq<seq<string>>
    /** For each node on the stack, a stack node it reaches whose index is its lowlink. */
    ghost var lowWitness: map<string, string>
    /** The visited nodes in discovery order, and the nodes of the reported components. */
    ghost var visited: seq<string>
    ghost var reported: set<string>
    /** Where each node of the stack sits in it. */
    ghost var stackPos: map<string, nat>

    ghost predicate Valid()
      reads this
    {
      && Closed(adj)
      && Numbered(adj, index, indices, lowlinks, visited)
      && StackOrdered(adj, stack, onStack, stackPos, indices, lowlinks, lowWitness)
      && ComponentsReported(adj, sccs, reported, onStack, indices)
    }

    constructor (adj: Graph)
      requires Closed(adj)
      ensures this.adj == adj && Valid()
      ensures index == 0 && stack == [] && indices == map[] && sccs == []
    {
      this.adj := adj;
      index := 0;
      stack := [];
      onStack := {};
      indices := map[];
      lowlinks := map[];
      sccs := [];
      lowWitness := map[];
      visited := [];
      reported := {};
      stackPos := map[];
    }

    /** Pops the top node. */
    method Pop() returns (w: string)
      requires Valid() && stack != []
      modifies this
      ensures Valid()
      ensures stack == old(stack[..|stack| - 1]) && w == old(stack[|stack| - 1])
      ensures onStack == old(onStack) - {w}
      ensures unchanged(`index, `indices, `lowlinks, `sccs, `visited, `reported)
    {
      w := stack[|stack| - 1];
      PopKeepsStack(adj, stack, onStack, stackPos, indices, lowlinks, lowWitness);
      PopKeepsComponents(adj, sccs, reported, onStack, indices, w);
      stack := stack[..|stack| - 1];
      onStack := onStack - {w};
    }

    /** The pop loop of `strongconnect`: pop down to and including `v`, which sits at position `k`. */
    method PopTo(v: string, ghost k: nat) returns (scc: seq<string>)
      requires Valid() && k < |stack| && stack[k] == v
      modifies this
      ensures Valid() && unchanged(`index, `indices, `lowlinks, `sccs, `visited, `reported)
      ensures stack == old(stack[..k])
      ensures |scc| == old(|stack|) - k
      ensures forall j :: 0 <= j < |scc| ==> scc[j] == old(stack[|stack| - 1 - j]) && scc[j] !in onStack
    {
      ghost var s := stack;
      scc := [];
      while true
        invariant Valid() && unchanged(`index, `indices, `lowlinks, `sccs, `visited, `reported)
        invariant k < |stack| && stack == s[..|stack|] && |stack| + |scc| == |s| && Sorted(s, indices)
        invariant forall j :: 0 <= j < |scc| ==> scc[j] == s[|s| - 1 - j] && scc[j] !in onStack
        decreases |stack|
      {
        var w := Pop();
        scc := scc + [w];
        if w == v {
          assert |stack| > k ==> Earlier(indices, s[k], s[|stack|]);
          break;
        }
        assert |stack| != k;
      }
    }

    /**
      The root branch of `strongconnect`: pop down to `v` (which sits at
      position `k`) and report the popped nodes when there are at least two.
    */
    method PopComponent(v: string, ghost k: nat)
      requires Valid() && k < |stack| && stack[k] == v
      requires forall j :: k <= j < |stack| ==> Reaches(adj, v, stack[j]) && Reaches(adj, stack[j], v)
      modifies this
      ensures Valid()
      ensures stack == old(stack[..k]) && v !in onStack
      ensures unchanged(`index, `indices, `lowlinks, `visited)
      ensures old(|stack|) - k < 2 ==> sccs == old(sccs)
      ensures old(|stack|) - k >= 2 ==>
                && |sccs| == |old(sccs)| + 1 && sccs[..|old(sccs)|] == old(sccs)
                && |sccs[|old(sccs)|]| == old(|stack|) - k
                && forall j :: 0 <= j < old(|stack|) - k ==> sccs[|old(sccs)|][j] == old(stack[|stack| - 1 - j])
    {
      ghost var s := stack;
      ghost var before := onStack;
      var scc := PopTo(v, k);
      assert scc[|scc| - 1] == v;
      if |scc| > 1 {
        PoppedSegment(adj, s, k, scc, indices);
        assert forall x :: x in scc ==> x in before && x !in onStack;
        ReportKeepsComponents(adj, sccs, reported, onStack, indices, scc);
        sccs := sccs + [scc];
        reported := reported + set x | x in scc;
      }
    }

    /** The first step of `strongconnect(v)`: give `v` the next index as index and lowlink, and push it. */
    method Push(v: string)
      requires Valid() && v in adj && v !in indices
      modifies this
      ensures Valid()
      ensures index == old(index) + 1 && indices == old(indices)[v := old(index)]
      ensures lowlinks == old(lowlinks)[v := old(index)]
      ensures stack == old(stack) + [v] && onStack == old(onStack) + {v}
      ensures unchanged(`sccs)
    {
      Number(v);
      PushNumbered(v);
    }

    /** Gives `v` the next index as its index and lowlink. */
    method Number(v: string)
      requires Valid() && v in adj && v !in indices
      modifies this
      ensures Valid() && v !in onStack && v !in reported
      ensures index == old(index) + 1 && indices == old(indices)[v := old(index)]
      ensures lowlinks == old(lowlinks)[v := old(index)]
      ensures unchanged(`stack, `onStack, `sccs, `reported)
    {
      assert v !in onStack && v !in reported;
      NumberKeepsNumbered(adj, index, indices, lowlinks, visited, v);
      NumberKeepsStack(adj, stack, onStack, stackPos, indices, lowlinks, lowWitness, v, index);
      NumberKeepsComponents(adj, sccs, reported, onStack, indices, v, index);
      indices := indices[v := index];
      lowlinks := lowlinks[v := index];
      visited := visited + [v];
      index := index + 1;
    }

    /** Pushes the node numbered last, which is not yet on the stack. */
    method PushNumbered(v: string)
      requires Valid() && v in indices && indices[v] == index - 1 && lowlinks[v] == indices[v]
      requires v !in onStack && v !in reported
      modifies this
      ensures Valid()
      ensures stack == old(stack) + [v] && onStack == old(onStack) + {v}
      ensures unchanged(`index, `indices, `lowlinks, `sccs)
    {
      assert forall x :: x in indices && x != v ==> indices[x] < indices[v];
      PushKeepsStack(adj, stack, onStack, stackPos, indices, lowlinks, lowWitness, v);
      PushKeepsComponents(adj, sccs, reported, onStack, indices, v);
      stack := stack + [v];
      onStack := onStack + {v};
      stackPos := stackPos[v := |stack| - 1];
      lowWitness := lowWitness[v := v];
    }

    /** `lowlinks[v] = low`, where `low` is the index of the stack node `w` that `v` reaches. */
    method Lower(v: string, low: nat, ghost w: string)
      requires Valid() && v in onStack && w in onStack && Reaches(adj, v, w)
      requires low == indices[w] && low <= lowlinks[v]
      modifies this
      ensures Valid() && lowlinks == old(lowlinks)[v := low]
      ensures unchanged(`index, `indices, `stack, `onStack, `sccs, `visited)
    {
      LowerKeepsNumbered(adj, index, indices, lowlinks, visited, v, low);
      LowerKeepsStack(adj, stack, onStack, stackPos, indices, lowlinks, lowWitness, v, w);
      lowlinks := lowlinks[v := low];
      lowWitness := lowWitness[v := w];
    }

    /** The part of the state that a call of `strongconnect` changes. */
    ghost function Snap(): Snapshot
      reads this
    {
      Snapshot(index, stack, indices, lowlinks, sccs)
    }

    /**
      The loop invariant of `strongconnect(v)`, which found the state `e`: the
      state has grown from `e`, `v` has the index `e.index` and sits on the
      stack at `e`'s top, and the nodes above `v` have lowlinks of at least `v`'s.
    */
    ghost predicate Visiting(v: string, e: Snapshot)
      reads this
    {
      VisitingBase(v, e) && ChainAbove(stack, lowlinks, indices, |e.stack| + 1, lowlinks[v])
    }

    /** All of `Visiting` but the lowlink chain. */
    ghost predicate VisitingBase(v: string, e: Snapshot)
      reads this
    {
      && Valid()
      && Grown(e, Snap())
      && v !in e.lowlinks && v in indices && indices[v] == e.index && index > e.index
      && (forall x :: x in indices && indices[x] >= e.index ==> Reaches(adj, v, x))
      && |e.stack| < |stack| && stack[|e.stack|] == v
    }

    /** `strongconnect(v)`: index `v`, visit its successors, and pop a component if `v` is its root. */
    method StrongConnect(v: string)
      requires Valid() && v in adj && v !in indices
      modifies this
      decreases adj.Keys - indices.Keys, 0
      ensures Valid() && Grown(old(Snap()), Snap()) && index > old(index)
      ensures v in indices && indices[v] == old(index)
      ensures forall x :: x in indices && indices[x] >= old(index) ==> Reaches(adj, v, x)
      ensures |stack| == |old(stack)| ==> lowlinks[v] == indices[v]
      ensures |stack| > |old(stack)| ==> stack[|old(stack)|] == v
      ensures ChainAbove(stack, lowlinks, indices, |old(stack)|, lowlinks[v])
    {
      ghost var e := Snap();
      Push(v);
      GrownPush(e, v);
      ReachesRefl(adj, v);
      var succ := adj[v];
      for i := 0 to |succ|
        invariant Visiting(v, e)
      {
        Visit(v, succ[i], e);
      }

      // If v is a root node, pop the stack and generate a component.
      if lowlinks[v] == indices[v] {
        Close(v, e);
      } else {
        ChainExtend(stack, lowlinks, indices, |e.stack|, lowlinks[v]);
      }
    }

    /** The root branch of `strongconnect(v)`: every node above `v` reaches `v`, so pop them as one component. */
    method Close(v: string, ghost e: Snapshot)
      requires Visiting(v, e) && lowlinks[v] == indices[v]
      modifies this
      ensures Valid() && Grown(e, Snap()) && stack == e.stack
      ensures v in indices && indices[v] == e.index && index > e.index && lowlinks[v] == indices[v]
      ensures forall x :: x in indices && indices[x] >= e.index ==> Reaches(adj, v, x)
    {
      forall j | |e.stack| <= j < |stack|
        ensures Reaches(adj, stack[j], v)
      {
        ReachesSegmentRoot(adj, stack, |e.stack|, j, indices, lowlinks, lowWitness, stackPos);
      }
      ghost var q := Snap();
      PopComponent(v, |e.stack|);
      GrownCut(e, q, Snap());
    }

    /** One turn of the successor loop of `strongconnect(v)`, for the successor `w`. */
    method Visit(v: string, w: string, ghost e: Snapshot)
      requires Visiting(v, e) && v in adj && w in adj[v]
      modifies this
      decreases adj.Keys - indices.Keys, 2
      ensures Visiting(v, e)
    {
      if w !in indices {
        // Successor w has not yet been visited; recurse on it.
        Descend(v, w, e);
      } else if w in onStack {
        // Successor w is on the stack, hence in the current component.
        if indices[w] < lowlinks[v] {
          ReachesRefl(adj, w);
          ReachesStep(adj, v, w, w);
          Relink(v, indices[w], w, e);
        }
      }
    }

    /** The first branch of the successor loop: `strongconnect(w)`, then take `w`'s lowlink if it is lower. */
    method Descend(v: string, w: string, ghost e: Snapshot)
      requires Visiting(v, e) && v in adj && w in adj[v] && w !in indices
      modifies this
      decreases adj.Keys - indices.Keys, 1
      ensures Visiting(v, e)
    {
      ghost var p := Snap();
      StrongConnect(w);
      GrownTrans(e, p, Snap());
      forall x | x in indices && indices[x] >= e.index
        ensures Reaches(adj, v, x)
      {
        if x !in p.indices {
          ReachesStep(adj, v, w, x);
        }
      }
      ChainJoin(p, Snap(), |e.stack| + 1, p.lowlinks[v], lowlinks[w]);
      if lowlinks[w] < lowlinks[v] {
        ReachesStep(adj, v, w, lowWitness[w]);
        Relink(v, lowlinks[w], lowWitness[w], e);
      }
    }

    /** `lowlinks[v] = low` inside the successor loop, where `low` is the index of the stack node `u` that `v` reaches. */
    method Relink(v: string, low: nat, ghost u: string, ghost e: Snapshot)
      requires VisitingBase(v, e) && ChainAbove(stack, lowlinks, indices, |e.stack| + 1, low)
      requires u in onStack && Reaches(adj, v, u) && low == indices[u] && low < lowlinks[v]
      modifies this
      ensures Visiting(v, e) && lowlinks[v] == low
    {
      ghost var p := Snap();
      forall j | |e.stack| < j < |stack|
        ensures stack[j] != v
      {
        assert Earlier(indices, stack[|e.stack|], stack[j]);
      }
      ChainLower(stack, lowlinks, indices, |e.stack| + 1, low, v, low);
      GrownLower(e, p, v, low);
      Lower(v, low, u);
    }

    /** `strongconnect(v)` called on an empty stack leaves the stack empty. */
    method Root(v: string)
      requires Valid() && stack == [] && v in adj && v !in indices
      modifies this
      ensures Valid() && stack == [] && v in indices && old(indices).Keys <= indices.Keys
    {
      ghost var n0 := index;
      StrongConnect(v);
      LowlinksFloor(adj, stack, onStack, stackPos, indices, lowlinks, lowWitness, n0);
    }

    /** The driver loop: `strongconnect` on every node not yet visited, in map order. */
    method Run(order: seq<string>)
      requires Valid() && stack == [] && indices == map[] && sccs == []
      requires Distinct(order) && forall x :: x in adj <==> x in order
      modifies this
      ensures Valid() && stack == [] && indices.Keys == adj.Keys
    {
      for k := 0 to |order|
        invariant Valid() && stack == []
        invariant forall j :: 0 <= j < k ==> order[j] in indices
      {
        if order[k] !in indices {
          Root(order[k]);
        }
      }
      assert indices.Keys == adj.Keys by {
        forall x | x in adj ensures x in indices {
          var j :| 0 <= j < |order| && order[j] == x;
        }
      }
    }
  }

  /**
    `DetectCircularDependencies`: the strongly connected components of at least
    two files, each listed in the order its nodes left the stack.
  */
  method DetectCircularDependencies(files: map<string, FileNode>, order: seq<string>)
    returns (cycles: seq<seq<string>>)
    requires Enumerates(order, files)
    ensures forall a :: 0 <= a < |cycles| ==> |cycles[a]| >= 2 && Distinct(cycles[a])
    ensures forall a, x :: 0 <= a < |cycles| && x in cycles[a] ==> x in files
    ensures forall a, b :: 0 <= a < b < |cycles| ==> Disjoint(cycles[a], cycles[b])
    ensures forall a :: 0 <= a < |cycles| ==> StronglyConnected(Adjacency(files), cycles[a])
  {
    var adj := BuildAdjacency(files, order);
    var t := new Tarjan(adj);
    t.Run(order);
    cycles := t.sccs;
  }

  // ---------------------------------------------------------------------------
  // Dead code

  /** `DetectDeadCode`: the files nobody imports, in map order. */
  method DetectDeadCode(files: map<string, FileNode>, order: seq<string>) returns (dead: seq<string>)
    requires Enumerates(order, files)
    ensures forall p :: p in dead <==> p in files && files[p].importedBy == []
    ensures Distinct(dead)
  {
    dead := [];
    for k := 0 to |order|
      invariant forall p :: p in dead <==> exists j :: 0 <= j < k && order[j] == p && files[p].importedBy == []
      invariant forall a, b :: 0 <= a < b < |dead| ==> dead[a] != dead[b]
      invariant forall p :: p in dead ==> p in order[..k]
    {
      if files[order[k]].importedBy == [] {
        assert order[k] !in order[..k];
        dead := dead + [order[k]];
      }
    }
  }
}
