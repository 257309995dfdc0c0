// scripts/check_construction_progress_reference.py: three-valued conditions over entities and edges.
module Conditions {
  import opened Common

  datatype Scalar = Flag(b: bool) | Number(n: int) | Text(s: string)

  datatype Entity = Entity(id: string, kind: string, generation: int, fields: map<string, Scalar>)

  type Entities = map<string, Entity>

  datatype Edge = Edge(src: string, dst: string, kind: string)

  datatype Node =
    | All(args: seq<Node>)
    | Any(args: seq<Node>)
    | Field(entity: Option<string>, generation: Option<int>, field: string, value: Scalar)
    | Related(root: string, rootGeneration: int, relation: string, incoming: bool)
    | Count(kind: string, test: Node, greater: bool, expected: int)

  datatype Truth = Yes | No | Maybe

  // A verdict, or an exception: a relation that looks at a row where there is none.
  datatype Verdict = Raised | Is(t: Truth)

  // The value that decides, an unknown, or the neutral value.
  function Combine(values: seq<Truth>, all: bool): (t: Truth)
    ensures all ==> (t.Yes? <==> forall i :: 0 <= i < |values| ==> values[i].Yes?)
    ensures all ==> (t.No? <==> exists i :: 0 <= i < |values| && values[i].No?)
    ensures !all ==> (t.Yes? <==> exists i :: 0 <= i < |values| && values[i].Yes?)
    ensures !all ==> (t.No? <==> forall i :: 0 <= i < |values| ==> values[i].No?)
  {
    var decisive := if all then No else Yes;
    if decisive in values then decisive else if Maybe in values then Maybe else if all then Yes else No
  }

  function Roots(node: Node): set<(string, int)> {
    match node
    case Related(root, g, _, _) => {(root, g)}
    case All(args) => set i, r | 0 <= i < |args| && r in Roots(args[i]) :: r
    case Any(args) => set i, r | 0 <= i < |args| && r in Roots(args[i]) :: r
    case _ => {}
  }

  predicate Bound(entities: Entities, root: string, generation: int) {
    root in entities && entities[root].generation == generation
  }

  predicate Linked(e: Edge, relation: string, incoming: bool, row: string, root: string) {
    e.kind == relation && (if incoming then e.src == row && e.dst == root else e.src == root && e.dst == row)
  }

  // Whether deciding an edge looks at the row: the source end is compared first.
  predicate AsksRow(e: Edge, relation: string, incoming: bool, root: string) {
    e.kind == relation && (incoming || e.src == root)
  }

  // A count known to lie between two bounds, compared with a number.
  function CountTruth(low: nat, high: nat, greater: bool, expected: int): Truth {
    if greater then (if low > expected then Yes else if high <= expected then No else Maybe)
    else if low == high == expected then Yes else if !(low <= expected <= high) then No else Maybe
  }

  function FieldTruth(entity: Option<Entity>, generation: Option<int>, field: string, value: Scalar): Truth {
    if entity.None? || (generation.Some? && entity.value.generation != generation.value) then Maybe
    else if field !in entity.value.fields then Maybe
    else if entity.value.fields[field] == value then Yes else No
  }

  function Lookup(entities: Entities, name: Option<string>, row: Option<Entity>): Option<Entity> {
    if name.None? then row else if name.value in entities then Some(entities[name.value]) else None
  }

  function RelatedVerdict(entities: Entities, edges: seq<Edge>, row: Option<Entity>, root: string, generation: int,
                          relation: string, incoming: bool): Verdict {
    if !Bound(entities, root, generation) then Is(Maybe)
    else if row.None? then (if exists e :: e in edges && AsksRow(e, relation, incoming, entities[root].id) then Raised
      else Is(No))
    else if exists e :: e in edges && Linked(e, relation, incoming, row.value.id, entities[root].id) then Is(Yes)
      else Is(No)
  }

  // The entities of a kind, by key.
  function OfKind(entities: Entities, kind: string): set<string> { set k | k in entities && entities[k].kind == kind }

  function Evaluate(node: Node, entities: Entities, edges: seq<Edge>, row: Option<Entity>): Verdict {
    match node
    case All(args) => Joined(args, entities, edges, row, true)
    case Any(args) => Joined(args, entities, edges, row, false)
    case Field(entity, generation, field, value) =>
      Is(FieldTruth(Lookup(entities, entity, row), generation, field, value))
    case Related(root, g, relation, incoming) => RelatedVerdict(entities, edges, row, root, g, relation, incoming)
    case Count(kind, test, greater, expected) =>
      if exists r :: r in Roots(test) && !Bound(entities, r.0, r.1) then Is(Maybe)
      else Tally(map k | k in OfKind(entities, kind) :: Evaluate(test, entities, edges, Some(entities[k])),
                 greater, expected)
  }

  // The rows with a given verdict.
  function With(verdicts: map<string, Verdict>, v: Verdict): set<string> { set k | k in verdicts && verdicts[k] == v }

  // Known rows are the least the count can be, known and open rows the most.
  function Tally(verdicts: map<string, Verdict>, greater: bool, expected: int): Verdict {
    if Raised in verdicts.Values then Raised
    else
      var low := |With(verdicts, Is(Yes))|;
      Is(CountTruth(low, low + |With(verdicts, Is(Maybe))|, greater, expected))
  }

  // Every argument is evaluated; an exception in any of them is the result.
  function Joined(args: seq<Node>, entities: Entities, edges: seq<Edge>, row: Option<Entity>, all: bool): Verdict {
    if exists i :: 0 <= i < |args| && Evaluate(args[i], entities, edges, row).Raised? then Raised
    else Is(Combine(seq(|args|, i requires 0 <= i < |args| => Evaluate(args[i], entities, edges, row).t), all))
  }

  // ---- More knowledge: fields added, and entities of kinds that are not counted.

  ghost predicate Richer(a: Entity, b: Entity) {
    a.id == b.id && a.kind == b.kind && a.generation == b.generation && a.fields.Keys <= b.fields.Keys
    && forall f :: f in a.fields ==> b.fields[f] == a.fields[f]
  }

  // The kinds whose population a condition counts.
  function Kinds(node: Node): set<string> {
    match node
    case All(args) => set i, k | 0 <= i < |args| && k in Kinds(args[i]) :: k
    case Any(args) => set i, k | 0 <= i < |args| && k in Kinds(args[i]) :: k
    case Count(kind, test, _, _) => {kind} + Kinds(test)
    case _ => {}
  }

  // The entities that were there have more fields, and none of a counted kind is new.
  ghost predicate Learned(kinds: set<string>, a: Entities, b: Entities) {
    a.Keys <= b.Keys && (forall k :: k in a ==> Richer(a[k], b[k])) && forall k :: k in b && k !in a ==>
      b[k].kind !in kinds
  }

  ghost predicate RowRicher(a: Option<Entity>, b: Option<Entity>) {
    (a.Some? <==> b.Some?) && (a.Some? ==> Richer(a.value, b.value))
  }

  // A decided verdict stays unless an exception comes, an undecided one may become anything, and an
  // exception stays.
  predicate Refines(a: Verdict, b: Verdict) {
    b.Raised? || (a.Is? && (a == Is(Yes) ==> b == Is(Yes)) && (a == Is(No) ==> b == Is(No)))
  }

  lemma CombineRefines(a: seq<Truth>, b: seq<Truth>, all: bool)
    requires |a| == |b| && forall i :: 0 <= i < |a| ==> Refines(Is(a[i]), Is(b[i]))
    ensures Refines(Is(Combine(a, all)), Is(Combine(b, all)))
  {
  }

  lemma CountRefines(low: nat, high: nat, low2: nat, high2: nat, greater: bool, expected: int)
    requires low <= low2 <= high2 <= high
    ensures Refines(Is(CountTruth(low, high, greater, expected)), Is(CountTruth(low2, high2, greater, expected)))
  {
  }

  // Learning fields, and entities of kinds that the condition does not count, never changes a decided verdict.
  lemma {:induction false} Monotone(node: Node, a: Entities, b: Entities, edges: seq<Edge>, r: Option<Entity>,
                                    s: Option<Entity>)
    requires Learned(Kinds(node), a, b) && RowRicher(r, s)
    ensures Refines(Evaluate(node, a, edges, r), Evaluate(node, b, edges, s))
  {
    match node
    case All(args) =>
      forall i | 0 <= i < |args| ensures Refines(Evaluate(args[i], a, edges, r), Evaluate(args[i], b, edges, s)) {
        assert Kinds(args[i]) <= Kinds(node);
        Monotone(args[i], a, b, edges, r, s);
      }
      JoinedMonotone(args, a, b, edges, r, s, true);
    case Any(args) =>
      forall i | 0 <= i < |args| ensures Refines(Evaluate(args[i], a, edges, r), Evaluate(args[i], b, edges, s)) {
        assert Kinds(args[i]) <= Kinds(node);
        Monotone(args[i], a, b, edges, r, s);
      }
      JoinedMonotone(args, a, b, edges, r, s, false);
    case Field(_, _, _, _) =>
    case Related(_, _, _, _) =>
    case Count(kind, test, greater, expected) =>
      if !exists root :: root in Roots(test) && !Bound(a, root.0, root.1) {
        forall k | k in a ensures Refines(Evaluate(test, a, edges, Some(a[k])), Evaluate(test, b, edges, Some(b[k]))) {
          Monotone(test, a, b, edges, Some(a[k]), Some(b[k]));
        }
        assert OfKind(a, kind) == OfKind(b, kind);
        TallyRefines(map k | k in OfKind(a, kind) :: Evaluate(test, a, edges, Some(a[k])),
                     map k | k in OfKind(b, kind) :: Evaluate(test, b, edges, Some(b[k])), greater, expected);
      }
  }

  lemma JoinedMonotone(args: seq<Node>, a: Entities, b: Entities, edges: seq<Edge>, r: Option<Entity>,
                       s: Option<Entity>, all: bool)
    requires forall i :: 0 <= i < |args| ==> Refines(Evaluate(args[i], a, edges, r), Evaluate(args[i], b, edges, s))
    ensures Refines(Joined(args, a, edges, r, all), Joined(args, b, edges, s, all))
  {
    if Joined(args, b, edges, s, all).Is? {
      CombineRefines(seq(|args|, i requires 0 <= i < |args| => Evaluate(args[i], a, edges, r).t),
                     seq(|args|, i requires 0 <= i < |args| => Evaluate(args[i], b, edges, s).t), all);
    }
  }

  // Known rows can only grow in number, and known and open rows together only shrink.
  lemma TallyRefines(a: map<string, Verdict>, b: map<string, Verdict>, greater: bool, expected: int)
    requires a.Keys == b.Keys && forall k :: k in a ==> Refines(a[k], b[k])
    ensures Refines(Tally(a, greater, expected), Tally(b, greater, expected))
  {
    var yes, open := With(a, Is(Yes)), With(a, Is(Maybe));
    var yes2, open2 := With(b, Is(Yes)), With(b, Is(Maybe));
    if Raised !in b.Values {
      forall k | k in a ensures a[k].Is? && Refines(a[k], b[k]) { assert b[k] in b.Values; }
      forall k | k in yes2 + open2 ensures k in yes + open {
        assert a[k].t.Yes? || a[k].t.Maybe?;
      }
      SubsetCard(yes, yes2);
      SubsetCard(yes2 + open2, yes + open);
      assert yes !! open && yes2 !! open2;
      CountRefines(|yes|, |yes| + |open|, |yes2|, |yes2| + |open2|, greater, expected);
    }
  }

  // ---- Complete knowledge: ordinary two-valued conditions.

  // Everything the condition mentions is there.
  ghost predicate Complete(node: Node, entities: Entities, row: Option<Entity>) {
    match node
    case All(args) => forall i :: 0 <= i < |args| ==> Complete(args[i], entities, row)
    case Any(args) => forall i :: 0 <= i < |args| ==> Complete(args[i], entities, row)
    case Field(entity, generation, field, _) =>
      var e := Lookup(entities, entity, row);
      e.Some? && (generation.Some? ==> e.value.generation == generation.value) && field in e.value.fields
    case Related(root, g, _, _) => Bound(entities, root, g) && row.Some?
    case Count(kind, test, _, _) =>
      && (forall r :: r in Roots(test) ==> Bound(entities, r.0, r.1))
      && forall k :: k in OfKind(entities, kind) ==> Complete(test, entities, Some(entities[k]))
  }

  // What the condition says, read as ordinary logic.
  ghost predicate Holds(node: Node, entities: Entities, edges: seq<Edge>, row: Option<Entity>)
    requires Complete(node, entities, row)
  {
    match node
    case All(args) => forall i :: 0 <= i < |args| ==> Holds(args[i], entities, edges, row)
    case Any(args) => exists i :: 0 <= i < |args| && Holds(args[i], entities, edges, row)
    case Field(entity, _, field, value) => Lookup(entities, entity, row).value.fields[field] == value
    case Related(root, _, relation, incoming) =>
      exists e :: e in edges && Linked(e, relation, incoming, row.value.id, entities[root].id)
    case Count(kind, test, greater, expected) =>
      var n := |set k | k in OfKind(entities, kind) && Holds(test, entities, edges, Some(entities[k]))|;
      if greater then n > expected else n == expected
  }

  // With complete knowledge the evaluator decides, and decides as ordinary logic does.
  lemma {:induction false} CompleteDecides(node: Node, entities: Entities, edges: seq<Edge>, row: Option<Entity>)
    requires Complete(node, entities, row)
    ensures Evaluate(node, entities, edges, row) == Is(if Holds(node, entities, edges, row) then Yes else No)
  {
    match node
    case All(args) =>
      forall i | 0 <= i < |args|
        ensures Evaluate(args[i], entities, edges, row) == Is(if Holds(args[i], entities, edges, row) then Yes else No)
      {
        CompleteDecides(args[i], entities, edges, row);
      }
      JoinedDecides(args, entities, edges, row, true);
    case Any(args) =>
      forall i | 0 <= i < |args|
        ensures Evaluate(args[i], entities, edges, row) == Is(if Holds(args[i], entities, edges, row) then Yes else No)
      {
        CompleteDecides(args[i], entities, edges, row);
      }
      JoinedDecides(args, entities, edges, row, false);
    case Field(_, _, _, _) =>
    case Related(_, _, _, _) =>
    case Count(kind, test, greater, expected) =>
      forall k | k in OfKind(entities, kind)
        ensures Evaluate(test, entities, edges, Some(entities[k]))
          == Is(if Holds(test, entities, edges, Some(entities[k])) then Yes else No)
      {
        CompleteDecides(test, entities, edges, Some(entities[k]));
      }
      TallyDecides(kind, test, greater, expected, entities, edges, row);
  }

  lemma JoinedDecides(args: seq<Node>, entities: Entities, edges: seq<Edge>, row: Option<Entity>, all: bool)
    requires forall i :: 0 <= i < |args| ==> Complete(args[i], entities, row)
    requires forall i :: 0 <= i < |args| ==>
      Evaluate(args[i], entities, edges, row) == Is(if Holds(args[i], entities, edges, row) then Yes else No)
    ensures Joined(args, entities, edges, row, all) == Is(
      if all then (if forall i :: 0 <= i < |args| ==> Holds(args[i], entities, edges, row) then Yes else No)
      else (if exists i :: 0 <= i < |args| && Holds(args[i], entities, edges, row) then Yes else No))
  {
    var ts := seq(|args|, i requires 0 <= i < |args| => Evaluate(args[i], entities, edges, row).t);
    assert Joined(args, entities, edges, row, all) == Is(Combine(ts, all));
    assert forall i :: 0 <= i < |args| ==> ts[i] == if Holds(args[i], entities, edges, row) then Yes else No;
  }

  lemma TallyDecides(kind: string, test: Node, greater: bool, expected: int, entities: Entities, edges: seq<Edge>,
                     row: Option<Entity>)
    requires Complete(Count(kind, test, greater, expected), entities, row)
    requires forall k :: k in OfKind(entities, kind) ==>
      Evaluate(test, entities, edges, Some(entities[k])) == Is(if Holds(test, entities, edges, Some(entities[k]))
        then Yes else No)
    ensures var node := Count(kind, test, greater, expected);
            Evaluate(node, entities, edges, row) == Is(if Holds(node, entities, edges, row) then Yes else No)
  {
    var verdicts := map k | k in OfKind(entities, kind) :: Evaluate(test, entities, edges, Some(entities[k]));
    var holds := set k | k in OfKind(entities, kind) && Holds(test, entities, edges, Some(entities[k]));
    assert With(verdicts, Is(Yes)) == holds;
    assert With(verdicts, Is(Maybe)) == {};
    assert Raised !in verdicts.Values;
  }

  // A verdict from partial knowledge is true in every completion, also one in which missing entities appear.
  lemma VerdictIsSound(node: Node, a: Entities, b: Entities, edges: seq<Edge>, r: Option<Entity>, s: Option<Entity>)
    requires Learned(Kinds(node), a, b) && RowRicher(r, s) && Complete(node, b, s)
    ensures Evaluate(node, a, edges, r) == Is(Yes) ==> Holds(node, b, edges, s)
    ensures Evaluate(node, a, edges, r) == Is(No) ==> !Holds(node, b, edges, s)
    ensures Evaluate(node, a, edges, r).Is?
  {
    Monotone(node, a, b, edges, r, s);
    CompleteDecides(node, b, edges, s);
  }

  // A population that is counted must be complete: one more entity of the kind turns a verdict around.
  lemma CountedKindsMatter(job: Entity, edges: seq<Edge>)
    ensures var node := Count(job.kind, All([]), false, 0);
            Evaluate(node, map[], edges, None) == Is(Yes) && Evaluate(node, map[job.id := job], edges, None) == Is(No)
  {
    var node, world := Count(job.kind, All([]), false, 0), map[job.id := job];
    CompleteDecides(node, map[], edges, None);
    CompleteDecides(node, world, edges, None);
    assert Holds(All([]), world, edges, Some(world[job.id]));
    assert OfKind(world, job.kind) == {job.id};
    var passing := set k | k in OfKind(world, job.kind) && Holds(All([]), world, edges, Some(world[k]));
    assert job.id in passing;
    assert Holds(node, world, edges, None) <==> |passing| == 0;
  }
}
