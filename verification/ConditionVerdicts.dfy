// scripts/check_construction_progress_reference.py: which verdict each condition has, decided or open, said of
// the entities, the edges and the verdicts of its parts.
module ConditionVerdicts {
  import opened Common
  import opened Conditions

  // ---- Fields.

  // The entity that a field condition looks at: the named one, or the row.
  predicate Denotes(entities: Entities, row: Option<Entity>, name: Option<string>, e: Entity) {
    (name.Some? && name.value in entities && entities[name.value] == e) || (name.None? && row == Some(e))
  }

  // The entity is there in the wanted generation and has the field.
  predicate Shows(e: Entity, generation: Option<int>, field: string) {
    field in e.fields && (generation.Some? ==> e.generation == generation.value)
  }

  lemma FieldExactly(entities: Entities, edges: seq<Edge>, row: Option<Entity>, name: Option<string>,
                     generation: Option<int>, field: string, value: Scalar)
    ensures var v := Evaluate(Field(name, generation, field, value), entities, edges, row);
            && (v == Is(Yes) <==>
                exists e :: Denotes(entities, row, name, e) && Shows(e, generation, field) && e.fields[field] == value)
            && (v == Is(No) <==>
                exists e :: Denotes(entities, row, name, e) && Shows(e, generation, field) && e.fields[field] != value)
            && (v == Is(Maybe) <==> !exists e :: Denotes(entities, row, name, e) && Shows(e, generation, field))
  {
    if name.Some? {
      if name.value in entities { assert Denotes(entities, row, name, entities[name.value]); }
    } else if row.Some? {
      assert Denotes(entities, row, name, row.value);
    }
  }

  // ---- Relations.

  // An edge of this relation between the row and the root, in the wanted direction.
  predicate Joins(e: Edge, relation: string, incoming: bool, row: string, root: string) {
    e == Edge(if incoming then row else root, if incoming then root else row, relation)
  }

  // Open exactly when the root is not there in its generation; with a row it is yes or no by the edges; without
  // one it raises exactly when some edge must be compared with the row.
  lemma RelatedExactly(entities: Entities, edges: seq<Edge>, row: Option<Entity>, root: string, g: int,
                       relation: string, incoming: bool)
    ensures var v := Evaluate(Related(root, g, relation, incoming), entities, edges, row);
            var bound := root in entities && entities[root].generation == g;
            && (v == Is(Maybe) <==> !bound)
            && (bound && row.Some? ==>
                  v == Is(if exists e :: e in edges && Joins(e, relation, incoming, row.value.id, entities[root].id)
                          then Yes else No))
            && (v.Raised? <==> bound && row.None? && exists e :: e in edges && e.kind == relation &&
                                                                (incoming || e.src == entities[root].id))
  {
    if root in entities && entities[root].generation == g && row.Some? {
      forall e | e in edges
        ensures Joins(e, relation, incoming, row.value.id, entities[root].id) <==>
                Linked(e, relation, incoming, row.value.id, entities[root].id)
      {
      }
    }
  }

  // ---- Conjunctions and disjunctions.

  // An exception of any argument wins; then one false argument decides a conjunction, however open the others
  // are, and only true arguments make it true.
  lemma AllExactly(args: seq<Node>, entities: Entities, edges: seq<Edge>, row: Option<Entity>)
    ensures var v := Evaluate(All(args), entities, edges, row);
            && (v.Raised? <==> exists i :: 0 <= i < |args| && Evaluate(args[i], entities, edges, row).Raised?)
            && (v == Is(Yes) <==> forall i :: 0 <= i < |args| ==> Evaluate(args[i], entities, edges, row) == Is(Yes))
            && (v == Is(No) <==>
                !v.Raised? && exists i :: 0 <= i < |args| && Evaluate(args[i], entities, edges, row) == Is(No))
  {
    JoinedExactly(args, entities, edges, row, true);
  }

  lemma AnyExactly(args: seq<Node>, entities: Entities, edges: seq<Edge>, row: Option<Entity>)
    ensures var v := Evaluate(Any(args), entities, edges, row);
            && (v.Raised? <==> exists i :: 0 <= i < |args| && Evaluate(args[i], entities, edges, row).Raised?)
            && (v == Is(No) <==> forall i :: 0 <= i < |args| ==> Evaluate(args[i], entities, edges, row) == Is(No))
            && (v == Is(Yes) <==>
                !v.Raised? && exists i :: 0 <= i < |args| && Evaluate(args[i], entities, edges, row) == Is(Yes))
  {
    JoinedExactly(args, entities, edges, row, false);
  }

  lemma JoinedExactly(args: seq<Node>, entities: Entities, edges: seq<Edge>, row: Option<Entity>, all: bool)
    ensures var v := Joined(args, entities, edges, row, all);
            var neutral := if all then Is(Yes) else Is(No);
            var decisive := if all then Is(No) else Is(Yes);
            && (v.Raised? <==> exists i :: 0 <= i < |args| && Evaluate(args[i], entities, edges, row).Raised?)
            && (v == neutral <==> forall i :: 0 <= i < |args| ==> Evaluate(args[i], entities, edges, row) == neutral)
            && (v == decisive <==>
                !v.Raised? && exists i :: 0 <= i < |args| && Evaluate(args[i], entities, edges, row) == decisive)
  {
    if !exists i :: 0 <= i < |args| && Evaluate(args[i], entities, edges, row).Raised? {
      var ts := seq(|args|, i requires 0 <= i < |args| => Evaluate(args[i], entities, edges, row).t);
      assert Joined(args, entities, edges, row, all) == Is(Combine(ts, all));
      assert forall i :: 0 <= i < |args| ==> Evaluate(args[i], entities, edges, row) == Is(ts[i]);
    }
  }

  // ---- Counts.

  // A part of a condition, by the argument to follow at each conjunction or disjunction.
  function PartAt(node: Node, path: seq<nat>): Option<Node> {
    if path == [] then Some(node)
    else if (node.All? || node.Any?) && path[0] < |node.args| then PartAt(node.args[path[0]], path[1..])
    else None
  }

  // The roots that must be bound before a count looks at any row: those of its relations, at any depth of
  // conjunctions and disjunctions but not inside another count.
  lemma {:induction false} RootsExactly(node: Node, root: string, g: int)
    ensures (root, g) in Roots(node) <==>
      exists path: seq<nat>, relation, incoming :: PartAt(node, path) == Some(Related(root, g, relation, incoming))
  {
    if (root, g) in Roots(node) { var path, part := RootsFound(node, root, g); }
    if path: seq<nat>, relation, incoming :| PartAt(node, path) == Some(Related(root, g, relation, incoming)) {
      PartsAreRoots(node, path, root, g, relation, incoming);
    }
  }

  lemma {:induction false} RootsFound(node: Node, root: string, g: int) returns (path: seq<nat>, part: Node)
    requires (root, g) in Roots(node)
    ensures PartAt(node, path) == Some(part) && part.Related? && part.root == root && part.rootGeneration == g
  {
    if node.Related? {
      path, part := [], node;
    } else {
      var i :| 0 <= i < |node.args| && (root, g) in Roots(node.args[i]);
      var rest;
      rest, part := RootsFound(node.args[i], root, g);
      path := [i as nat] + rest;
      assert path[1..] == rest;
    }
  }

  lemma {:induction false} PartsAreRoots(node: Node, path: seq<nat>, root: string, g: int, relation: string,
                                         incoming: bool)
    requires PartAt(node, path) == Some(Related(root, g, relation, incoming))
    ensures (root, g) in Roots(node)
  {
    if path != [] { PartsAreRoots(node.args[path[0]], path[1..], root, g, relation, incoming); }
  }

  // With a row there is always a verdict.
  lemma {:induction false} RowNeverRaises(node: Node, entities: Entities, edges: seq<Edge>, row: Entity)
    ensures Evaluate(node, entities, edges, Some(row)).Is?
  {
    match node
    case All(args) =>
      forall i | 0 <= i < |args| ensures Evaluate(args[i], entities, edges, Some(row)).Is? {
        RowNeverRaises(args[i], entities, edges, row);
      }
    case Any(args) =>
      forall i | 0 <= i < |args| ensures Evaluate(args[i], entities, edges, Some(row)).Is? {
        RowNeverRaises(args[i], entities, edges, row);
      }
    case Field(_, _, _, _) =>
    case Related(_, _, _, _) =>
    case Count(kind, test, greater, expected) => CountNeverRaises(kind, test, greater, expected, entities, edges,
      Some(row));
  }

  lemma {:induction false} CountNeverRaises(kind: string, test: Node, greater: bool, expected: int, entities: Entities,
                                            edges: seq<Edge>, row: Option<Entity>)
    ensures Evaluate(Count(kind, test, greater, expected), entities, edges, row).Is?
    decreases test
  {
    forall k | k in OfKind(entities, kind) ensures Evaluate(test, entities, edges, Some(entities[k])).Is? {
      RowNeverRaises(test, entities, edges, entities[k]);
    }
  }

  // The rows that certainly pass, and those that may.
  function Sure(kind: string, test: Node, entities: Entities, edges: seq<Edge>): set<string> {
    set k | k in entities && entities[k].kind == kind && Evaluate(test, entities, edges, Some(entities[k])) == Is(Yes)
  }

  function Possible(kind: string, test: Node, entities: Entities, edges: seq<Edge>): set<string> {
    set k | k in entities && entities[k].kind == kind && Evaluate(test, entities, edges, Some(entities[k])) != Is(No)
  }

  // One way the open rows could turn out.
  predicate Outcome(sure: set<string>, possible: set<string>, rows: set<string>) { sure <= rows <= possible }

  predicate Compares(n: nat, greater: bool, expected: int) { if greater then n > expected else n == expected }

  lemma {:induction false} SizeBetween(a: set<string>, b: set<string>, n: nat) returns (c: set<string>)
    requires a <= b && |a| <= n <= |b|
    ensures Outcome(a, b, c) && |c| == n
    decreases n - |a|
  {
    c := a;
    if |a| < n {
      if b <= a { SubsetCard(b, a); }
      var x :| x in b && x !in a;
      c := SizeBetween(a + {x}, b, n);
    }
  }

  // A comparison that holds, or fails, for every size between two bounds.
  lemma SizesDecide(a: set<string>, b: set<string>, greater: bool, expected: int)
    requires a <= b
    ensures |a| <= |b|
    ensures CountTruth(|a|, |b|, greater, expected).Yes? <==>
      forall c: set<string> :: Outcome(a, b, c) ==> Compares(|c|, greater, expected)
    ensures CountTruth(|a|, |b|, greater, expected).No? <==>
      forall c: set<string> :: Outcome(a, b, c) ==> !Compares(|c|, greater, expected)
  {
    SubsetCard(a, b);
    forall c: set<string> | Outcome(a, b, c) ensures |a| <= |c| <= |b| {
      SubsetCard(a, c);
      SubsetCard(c, b);
    }
    assert Outcome(a, b, a) && Outcome(a, b, b);
    if !greater && |a| <= expected <= |b| {
      var c := SizeBetween(a, b, expected);
    }
  }

  // A count is decided exactly when its roots are bound and every way the open rows could turn out agrees.
  lemma CountExactly(kind: string, test: Node, greater: bool, expected: int, entities: Entities, edges: seq<Edge>,
                     row: Option<Entity>)
    ensures var v := Evaluate(Count(kind, test, greater, expected), entities, edges, row);
            var sure, possible := Sure(kind, test, entities, edges), Possible(kind, test, entities, edges);
            var bound := forall r :: r in Roots(test) ==> Bound(entities, r.0, r.1);
            && v.Is?
            && (v == Is(Yes) <==>
                bound && forall rows: set<string> :: Outcome(sure, possible, rows) ==>
                  Compares(|rows|, greater, expected))
            && (v == Is(No) <==>
                bound && forall rows: set<string> :: Outcome(sure, possible, rows) ==>
                  !Compares(|rows|, greater, expected))
  {
    CountNeverRaises(kind, test, greater, expected, entities, edges, row);
    var sure, possible := Sure(kind, test, entities, edges), Possible(kind, test, entities, edges);
    SizesDecide(sure, possible, greater, expected);
    if forall r :: r in Roots(test) ==> Bound(entities, r.0, r.1) {
      CountIsTruth(kind, test, greater, expected, entities, edges, row);
    }
  }

  lemma CountIsTruth(kind: string, test: Node, greater: bool, expected: int, entities: Entities, edges: seq<Edge>,
                     row: Option<Entity>)
    requires forall r :: r in Roots(test) ==> Bound(entities, r.0, r.1)
    ensures Evaluate(Count(kind, test, greater, expected), entities, edges, row)
         == Is(CountTruth(|Sure(kind, test, entities, edges)|, |Possible(kind, test, entities, edges)|, greater,
           expected))
  {
    var verdicts := map k | k in OfKind(entities, kind) :: Evaluate(test, entities, edges, Some(entities[k]));
    forall k | k in verdicts ensures verdicts[k].Is? { RowNeverRaises(test, entities, edges, entities[k]); }
    TallyOf(verdicts, Sure(kind, test, entities, edges), Possible(kind, test, entities, edges), greater, expected);
  }

  lemma TallyOf(verdicts: map<string, Verdict>, sure: set<string>, possible: set<string>, greater: bool, expected: int)
    requires forall k :: k in verdicts ==> verdicts[k].Is?
    requires forall k :: k in sure <==> k in verdicts && verdicts[k] == Is(Yes)
    requires forall k :: k in possible <==> k in verdicts && verdicts[k] != Is(No)
    ensures Tally(verdicts, greater, expected) == Is(CountTruth(|sure|, |possible|, greater, expected))
  {
    var yes, open := With(verdicts, Is(Yes)), With(verdicts, Is(Maybe));
    assert yes == sure;
    forall k | k in possible ensures k in yes + open { assert verdicts[k].t.Yes? || verdicts[k].t.Maybe?; }
    assert yes + open == possible && yes !! open;
  }
}
