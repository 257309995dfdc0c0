// The iterative depth-first search that yields the reverse postorder.
module DepthFirst {
  import opened Common
  import opened Graphs

  // A stack entry: a vertex and the offset of its next unexplored target.
  datatype Entry = Entry(node: nat, offset: nat)

  // rank inverts order: it gives each listed vertex its position.
  ghost predicate Ranks(order: seq<nat>, rank: map<nat, nat>) {
    && (forall i :: 0 <= i < |order| ==> order[i] in rank && rank[order[i]] == i)
    && (forall v :: v in rank ==> rank[v] < |order| && order[rank[v]] == v)
  }

  // What the analysis needs of the order: it lists the reachable vertices, each once, the
  // root first, and every other vertex after one of its predecessors.
  ghost predicate IsOrder(g: Graph, root: nat, order: seq<nat>, rank: map<nat, nat>) {
    && Ranks(order, rank)
    && |order| > 0 && order[0] == root
    && (forall v :: v in rank <==> Connected(g, root, v, {}))
    && (forall v {:trigger HasEarlierParent(g, rank, v)} :: v in rank && v != root ==> HasEarlierParent(g, rank, v))
  }

  ghost predicate HasEarlierParent(g: Graph, rank: map<nat, nat>, v: nat)
    requires v in rank
  {
    exists a :: a in rank && Edge(g, a, v) && rank[a] < rank[v]
  }

  // The stack is a path of the search tree; pos gives each open vertex its place on it.
  ghost predicate StackOk(g: Graph, root: nat, stack: seq<Entry>, pos: map<nat, nat>, seen: set<nat>) {
    && (forall i :: 0 <= i < |stack| ==> stack[i].node in pos && pos[stack[i].node] == i && EntryOk(g, stack[i], seen))
    && (forall v :: v in pos ==> pos[v] < |stack| && stack[pos[v]].node == v)
    && (stack != [] ==> stack[0].node == root)
    && (forall i :: 0 < i < |stack| ==> Edge(g, stack[i - 1].node, stack[i].node))
  }

  // The targets before an entry's offset have been seen.
  ghost predicate EntryOk(g: Graph, e: Entry, seen: set<nat>) {
    && e.node < |g| && e.offset <= |g[e.node]|
    && forall j :: 0 <= j < e.offset ==> g[e.node][j] in seen
  }

  // Some predecessor of the finished vertex v is still open or finished later.
  ghost predicate HasLaterParent(g: Graph, seen: set<nat>, fin: map<nat, nat>, v: nat)
    requires v in fin
  {
    exists a :: a in seen && Edge(g, a, v) && (a !in fin || fin[v] < fin[a])
  }

  ghost predicate FinishedOk(g: Graph, root: nat, seen: set<nat>, fin: map<nat, nat>) {
    && (forall a, b :: a in fin && Edge(g, a, b) ==> b in seen)
    && (forall v {:trigger HasLaterParent(g, seen, fin, v)} :: v in fin && v != root ==>
      HasLaterParent(g, seen, fin, v))
  }

  lemma SeeKeepsFinished(g: Graph, root: nat, seen: set<nat>, fin: map<nat, nat>, t: nat)
    requires FinishedOk(g, root, seen, fin) && t !in seen
    ensures FinishedOk(g, root, seen + {t}, fin)
  {
    forall v | v in fin && v != root ensures HasLaterParent(g, seen + {t}, fin, v) {
      assert HasLaterParent(g, seen, fin, v);
      var a :| a in seen && Edge(g, a, v) && (a !in fin || fin[v] < fin[a]);
      assert a in seen + {t};
    }
  }

  lemma FinishKeepsFinished(g: Graph, root: nat, seen: set<nat>, fin: map<nat, nat>, top: nat, n: nat)
    requires FinishedOk(g, root, seen, fin) && top in seen && top !in fin
    requires forall v :: v in fin ==> fin[v] < n
    requires forall b :: Edge(g, top, b) ==> b in seen
    requires top != root ==> exists a :: a in seen && Edge(g, a, top) && a !in fin && a != top
    ensures FinishedOk(g, root, seen, fin[top := n])
  {
    var fin' := fin[top := n];
    forall v | v in fin' && v != root ensures HasLaterParent(g, seen, fin', v) {
      if v == top {
        var a :| a in seen && Edge(g, a, top) && a !in fin && a != top;
        assert a !in fin';
      } else {
        assert HasLaterParent(g, seen, fin, v);
        var a :| a in seen && Edge(g, a, v) && (a !in fin || fin[v] < fin[a]);
        assert a !in fin' || fin'[v] < fin'[a];
      }
    }
  }

  // The invariant of the search. pos and fin split the seen vertices into open and finished ones.
  ghost predicate Searching(g: Graph, root: nat, stack: seq<Entry>, pos: map<nat, nat>,
                            post: seq<nat>, fin: map<nat, nat>, seen: set<nat>) {
    && root in seen
    && (forall v :: v in seen ==> Connected(g, root, v, {}))
    && seen == pos.Keys + fin.Keys && pos.Keys !! fin.Keys
    && StackOk(g, root, stack, pos, seen)
    && Ranks(post, fin) && FinishedOk(g, root, seen, fin)
    && (stack == [] ==> |post| > 0 && post[|post| - 1] == root)
  }

  lemma Begin(g: Graph, root: nat)
    requires root < |g|
    ensures Searching(g, root, [Entry(root, 0)], map[root := 0], [], map[], {root})
  {
    assert WalkBetween(g, At(root), root, root) && Visits(At(root)) !! {};
  }

  lemma Push(g: Graph, root: nat, stack: seq<Entry>, pos: map<nat, nat>,
             post: seq<nat>, fin: map<nat, nat>, seen: set<nat>, t: nat)
    requires WellFormed(g) && Searching(g, root, stack, pos, post, fin, seen) && stack != [] && t !in seen
    requires var top := stack[|stack| - 1];
             top.node < |g| && top.offset < |g[top.node]| && g[top.node][top.offset] == t
    ensures var top := stack[|stack| - 1];
            Searching(g, root, stack[|stack| - 1 := Entry(top.node, top.offset + 1)] + [Entry(t, 0)],
                      pos[t := |stack|], post, fin, seen + {t})
  {
    var top := stack[|stack| - 1];
    assert Edge(g, top.node, t) && top.node in seen;
    ConnectedStep(g, root, top.node, t, {});
    SeeKeepsFinished(g, root, seen, fin, t);
    PushKeepsStack(g, root, stack, pos, seen, t);
  }

  lemma Pop(g: Graph, root: nat, stack: seq<Entry>, pos: map<nat, nat>,
            post: seq<nat>, fin: map<nat, nat>, seen: set<nat>)
    requires Searching(g, root, stack, pos, post, fin, seen) && stack != []
    requires var top := stack[|stack| - 1]; top.node < |g| && top.offset == |g[top.node]|
    ensures var top := stack[|stack| - 1].node;
            Searching(g, root, stack[..|stack| - 1], pos - {top}, post + [top], fin[top := |post|], seen)
  {
    var top := stack[|stack| - 1].node;
    PopKeepsStack(g, root, stack, pos, seen, fin);
    FinishKeepsFinished(g, root, seen, fin, top, |post|);
    RanksAppend(post, fin, top);
  }

  lemma RanksAppend(order: seq<nat>, rank: map<nat, nat>, v: nat)
    requires Ranks(order, rank) && v !in rank
    ensures Ranks(order + [v], rank[v := |order|])
  {
  }

  lemma Advance(g: Graph, root: nat, stack: seq<Entry>, pos: map<nat, nat>,
                post: seq<nat>, fin: map<nat, nat>, seen: set<nat>)
    requires Searching(g, root, stack, pos, post, fin, seen) && stack != []
    requires var top := stack[|stack| - 1];
             top.node < |g| && top.offset < |g[top.node]| && g[top.node][top.offset] in seen
    ensures var top := stack[|stack| - 1];
            Searching(g, root, stack[|stack| - 1 := Entry(top.node, top.offset + 1)], pos, post, fin, seen)
  {
    AdvanceKeepsStack(g, root, stack, pos, seen);
  }

  // One turn: follow the next target of the top vertex, or finish it.
  method Turn(g: Graph, ghost root: nat, stack0: seq<Entry>, ghost pos0: map<nat, nat>,
              post0: seq<nat>, ghost fin0: map<nat, nat>, seen0: set<nat>)
    returns (stack: seq<Entry>, ghost pos: map<nat, nat>, post: seq<nat>, ghost fin: map<nat, nat>, seen: set<nat>)
    requires WellFormed(g) && Searching(g, root, stack0, pos0, post0, fin0, seen0) && stack0 != []
    requires seen0 <= Below(|g|)
    ensures Searching(g, root, stack, pos, post, fin, seen)
    ensures seen0 <= seen <= Below(|g|)
    ensures seen == seen0 ==> |stack| < |stack0| || (|stack| == |stack0| && Remaining(g, stack) < Remaining(g, stack0))
  {
    stack, pos, post, fin, seen := stack0, pos0, post0, fin0, seen0;
    var top := stack[|stack| - 1];
    assert EntryOk(g, top, seen);
    if top.offset < |g[top.node]| {
      var target := g[top.node][top.offset];
      if target in seen {
        Advance(g, root, stack, pos, post, fin, seen);
        stack := stack[|stack| - 1 := Entry(top.node, top.offset + 1)];
      } else {
        Push(g, root, stack, pos, post, fin, seen, target);
        pos := pos[target := |stack|];
        stack := stack[|stack| - 1 := Entry(top.node, top.offset + 1)] + [Entry(target, 0)];
        seen := seen + {target};
      }
    } else {
      Pop(g, root, stack, pos, post, fin, seen);
      fin := fin[top.node := |post|];
      pos := pos - {top.node};
      post := post + [top.node];
      stack := stack[..|stack| - 1];
    }
  }

  // Iterative depth-first search; the result is the postorder.
  method Postorder(g: Graph, root: nat) returns (post: seq<nat>, seen: set<nat>, ghost fin: map<nat, nat>)
    requires WellFormed(g) && root < |g|
    ensures Searching(g, root, [], map[], post, fin, seen)
  {
    seen := {root};
    var stack := [Entry(root, 0)];
    post := [];
    ghost var pos: map<nat, nat> := map[root := 0];
    fin := map[];
    Begin(g, root);
    while stack != []
      invariant seen <= Below(|g|)
      invariant Searching(g, root, stack, pos, post, fin, seen)
      decreases Below(|g|) - seen, |stack|, Remaining(g, stack)
    {
      stack, pos, post, fin, seen := Turn(g, root, stack, pos, post, fin, seen);
    }
    assert pos == map[];
  }

  // The reverse postorder of the vertices reachable from the root, and its ranks.
  method ReversePostorder(g: Graph, root: nat) returns (order: seq<nat>, rank: map<nat, nat>)
    requires WellFormed(g) && root < |g|
    ensures IsOrder(g, root, order, rank)
  {
    var post, seen, fin := Postorder(g, root);
    order := Reversed(post);
    rank := RankOrder(order, post, fin);
    FinishOrder(g, root, post, seen, fin, order, rank);
  }

  ghost function Remaining(g: Graph, stack: seq<Entry>): nat {
    if stack == [] then 0 else
      var top := stack[|stack| - 1];
      if top.node < |g| && top.offset <= |g[top.node]| then |g[top.node]| - top.offset else 0
  }

  lemma AdvanceKeepsStack(g: Graph, root: nat, stack: seq<Entry>, pos: map<nat, nat>, seen: set<nat>)
    requires StackOk(g, root, stack, pos, seen) && stack != []
    requires var top := stack[|stack| - 1];
             top.offset < |g[top.node]| && g[top.node][top.offset] in seen
    ensures var top := stack[|stack| - 1];
            StackOk(g, root, stack[|stack| - 1 := Entry(top.node, top.offset + 1)], pos, seen)
  {
    assert EntryOk(g, stack[|stack| - 1], seen);
  }

  lemma PushKeepsStack(g: Graph, root: nat, stack: seq<Entry>, pos: map<nat, nat>, seen: set<nat>, t: nat)
    requires WellFormed(g) && StackOk(g, root, stack, pos, seen) && stack != [] && t !in pos
    requires var top := stack[|stack| - 1];
             top.offset < |g[top.node]| && g[top.node][top.offset] == t
    ensures var top := stack[|stack| - 1];
            StackOk(g, root, stack[|stack| - 1 := Entry(top.node, top.offset + 1)] + [Entry(t, 0)],
                    pos[t := |stack|], seen + {t})
  {
    var n := |stack|;
    var top := stack[n - 1];
    var s, p := stack[n - 1 := Entry(top.node, top.offset + 1)] + [Entry(t, 0)], pos[t := n];
    assert forall i :: 0 <= i < n ==> s[i].node == stack[i].node && EntryOk(g, stack[i], seen);
    assert s[n] == Entry(t, 0);
    assert Edge(g, top.node, t);
    forall i | 0 <= i < n ensures EntryOk(g, s[i], seen + {t}) {
      assert EntryOk(g, stack[i], seen);
    }
  }

  lemma PopKeepsStack(g: Graph, root: nat, stack: seq<Entry>, pos: map<nat, nat>, seen: set<nat>, fin: map<nat, nat>)
    requires StackOk(g, root, stack, pos, seen) && stack != []
    requires seen == pos.Keys + fin.Keys && pos.Keys !! fin.Keys
    requires stack[|stack| - 1].offset == |g[stack[|stack| - 1].node]|
    ensures StackOk(g, root, stack[..|stack| - 1], pos - {stack[|stack| - 1].node}, seen)
    ensures var top := stack[|stack| - 1].node;
            && top in seen && top !in fin
            && (forall b :: Edge(g, top, b) ==> b in seen)
            && (top != root ==> exists a :: a in seen && Edge(g, a, top) && a !in fin && a != top)
            && (|stack| == 1 ==> top == root)
  {
    var n := |stack| - 1;
    var top := stack[n].node;
    assert EntryOk(g, stack[n], seen);
    if top != root {
      var a := stack[n - 1].node;
      assert a in pos && pos[a] == n - 1 && Edge(g, a, top);
    }
  }

  lemma FinishOrder(g: Graph, root: nat, post: seq<nat>, seen: set<nat>, fin: map<nat, nat>,
                    order: seq<nat>, rank: map<nat, nat>)
    requires root in seen && seen == fin.Keys && Ranks(post, fin) && FinishedOk(g, root, seen, fin)
    requires |post| > 0 && post[|post| - 1] == root
    requires forall v :: v in seen ==> Connected(g, root, v, {})
    requires order == Reversed(post) && Ranks(order, rank) && rank.Keys == seen
    requires forall v :: v in fin ==> rank[v] == |post| - 1 - fin[v]
    ensures IsOrder(g, root, order, rank)
  {
    forall v | Connected(g, root, v, {}) ensures v in rank {
      var w :| WalkBetween(g, w, root, v) && Visits(w) !! {};
      ClosedHoldsWalk(g, seen, {}, w);
      WalkEnds(w);
    }
    forall v | v in rank && v != root ensures HasEarlierParent(g, rank, v) {
      assert HasLaterParent(g, seen, fin, v);
      var a :| a in seen && Edge(g, a, v) && (a !in fin || fin[v] < fin[a]);
      assert a in rank && rank[a] < rank[v];
    }
  }

  // The position of each vertex of a reversed postorder.
  method RankOrder(order: seq<nat>, ghost post: seq<nat>, ghost fin: map<nat, nat>) returns (rank: map<nat, nat>)
    requires order == Reversed(post) && Ranks(post, fin)
    ensures Ranks(order, rank) && rank.Keys == fin.Keys
    ensures forall v :: v in fin ==> rank[v] == |order| - 1 - fin[v]
  {
    rank := map[];
    var n := |order|;
    for i := 0 to n
      invariant forall v :: v in rank <==> v in fin && n - 1 - fin[v] < i
      invariant forall v :: v in rank ==> rank[v] == n - 1 - fin[v]
    {
      rank := rank[order[i] := i];
    }
  }
}
