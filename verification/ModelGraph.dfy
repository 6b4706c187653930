/**
 The weighted authorization model graph, what its nodes mean, and the flattening of nested unions in it.

 A graph is given as the tree of its edges: evaluation and flattening only ever follow edges
 forward and never meet a node twice on one path.
 */
module ModelGraph {
  import opened Ids
  import opened Sorted
  import opened Channels
  import opened BottomUp

  datatype NodeKind =
    | SpecificType | SpecificTypeWildcard
    | SpecificTypeAndRelation | LogicalDirectGrouping | LogicalTTUGrouping
    | UnionOperator | IntersectionOperator | ExclusionOperator

  datatype EdgeKind = DirectEdge | RewriteEdge | TTUEdge | ComputedEdge | DirectLogicalEdge | TTULogicalEdge

  datatype Node = Node(kind: NodeKind, edges: seq<Edge>)

  /**
   `weighted`: the edge leads to the user's type; `wildcard`: it leads to that type's public
   wildcard; `recursive`: it is labelled with a recursive relation; `stored`: for a direct edge,
   the ids that reading the user's tuples along it yields.
   */
  datatype Edge = Edge(kind: EdgeKind, weighted: bool, wildcard: bool, recursive: bool, stored: Source, to: Node)

  /** Whether the user is a public wildcard, and whether the recursive relation's own edges are left to the caller. */
  datatype Query = Query(wild: bool, recursivePath: bool)

  predicate UnionLike(n: Node) {
    n.kind in {SpecificTypeAndRelation, LogicalDirectGrouping, LogicalTTUGrouping, UnionOperator}
  }

  /** An edge that can contribute to a request, for a wildcard user or for an ordinary one. */
  predicate Live(e: Edge, q: Query) {
    e.weighted && (q.wild ==> e.wildcard)
  }

  predicate CanFlatten(e: Edge) {
    || e.kind in {ComputedEdge, DirectLogicalEdge, TTULogicalEdge}
    || (e.kind == RewriteEdge && e.to.kind in {SpecificTypeAndRelation, UnionOperator})
  }

  /** A direct or tupleset edge, or one to a set operation other than a union: something a union has to evaluate. */
  predicate Operand(e: Edge) {
    match e.kind
    case DirectEdge => true
    case TTUEdge => true
    case RewriteEdge => e.to.kind != SpecificTypeAndRelation && e.to.kind != UnionOperator
    case ComputedEdge => false
    case DirectLogicalEdge => false
    case TTULogicalEdge => false
  }

  /** On the recursive path a union leaves out the operands that lead back to the relation. */
  predicate Dropped(e: Edge, q: Query) {
    q.recursivePath && e.recursive && Operand(e)
  }

  /** An edge of the node is evaluated. */
  predicate Used(n: Node, e: Edge, q: Query) {
    Live(e, q) && (UnionLike(n) ==> !Dropped(e, q))
  }

  // ---------------------------------------------------------------- meaning

  ghost function EdgeMeaning(e: Edge, q: Query): set<Id>
    decreases e
  {
    if !e.weighted || (q.wild && !e.wildcard) then {}
    else if e.kind == DirectEdge then Elems(e.stored.items) - {EMPTY}
    else NodeMeaning(e.to, q)
  }

  ghost function NodeMeaning(n: Node, q: Query): set<Id>
    decreases n
  {
    match n.kind
    case IntersectionOperator => AllOf(n.edges, q)
    case ExclusionOperator =>
      if |n.edges| == 2 then EdgeMeaning(n.edges[0], q) - EdgeMeaning(n.edges[1], q) else {}
    case _ => AnyOf(n.edges, q)
  }

  ghost function AnyOf(es: seq<Edge>, q: Query): set<Id>
    decreases es
  {
    if es == [] then {} else (if Dropped(es[0], q) then {} else EdgeMeaning(es[0], q)) + AnyOf(es[1..], q)
  }

  ghost function AllOf(es: seq<Edge>, q: Query): set<Id>
    decreases es
  {
    if es == [] then {}
    else if |es| == 1 then EdgeMeaning(es[0], q)
    else EdgeMeaning(es[0], q) * AllOf(es[1..], q)
  }

  lemma {:induction false} AnyOfConcat(a: seq<Edge>, b: seq<Edge>, q: Query)
    ensures AnyOf(a + b, q) == AnyOf(a, q) + AnyOf(b, q)
    decreases |a|
  {
    if a == [] {
      assert a + b == b;
    } else {
      assert (a + b)[1..] == a[1..] + b;
      AnyOfConcat(a[1..], b, q);
    }
  }

  // ---------------------------------------------------------------- flattening

  /** Live edges that flattening follows do lead to a union. */
  predicate WellShaped(n: Node, q: Query)
    decreases n
  {
    forall e :: e in n.edges && Live(e, q) && CanFlatten(e) ==> UnionLike(e.to) && WellShaped(e.to, q)
  }

  function Flattened(n: Node, q: Query): seq<Edge>
    decreases n
  {
    FlattenedFrom(n.edges, q)
  }

  function FlattenedFrom(es: seq<Edge>, q: Query): seq<Edge>
    decreases es
  {
    if es == [] then []
    else FlattenedEdge(es[0], q) + FlattenedFrom(es[1..], q)
  }

  function FlattenedEdge(e: Edge, q: Query): seq<Edge>
    decreases e
  {
    if !Live(e, q) then []
    else if CanFlatten(e) then Flattened(e.to, q)
    else if !q.recursivePath || !e.recursive then [e]
    else []
  }

  lemma {:induction false} FlattenedFromConcat(a: seq<Edge>, b: seq<Edge>, q: Query)
    ensures FlattenedFrom(a + b, q)
            == FlattenedFrom(a, q) + FlattenedFrom(b, q)
    decreases |a|
  {
    if a == [] {
      assert a + b == b;
    } else {
      assert (a + b)[1..] == a[1..] + b;
      FlattenedFromConcat(a[1..], b, q);
    }
  }

  method FlattenNode(node: Node, q: Query) returns (result: seq<Edge>)
    ensures result == Flattened(node, q)
    decreases node
  {
    result := [];
    for i := 0 to |node.edges|
      invariant result == FlattenedFrom(node.edges[..i], q)
    {
      var edge := node.edges[i];
      assert node.edges[..i + 1] == node.edges[..i] + [edge];
      FlattenedFromConcat(node.edges[..i], [edge], q);
      assert FlattenedFrom([edge], q) == FlattenedEdge(edge, q);
      if !Live(edge, q) {
        continue;
      }
      if CanFlatten(edge) {
        var res := FlattenNode(edge.to, q);
        result := result + res;
      } else if !q.recursivePath || !edge.recursive {
        result := result + [edge];
      }
    }
    assert node.edges[..|node.edges|] == node.edges;
  }

  /** The flattened edges together mean what the node means. */
  lemma {:induction false} FlatteningKeepsMeaning(n: Node, q: Query)
    requires WellShaped(n, q) && UnionLike(n)
    ensures AnyOf(Flattened(n, q), q) == NodeMeaning(n, q)
    decreases n
  {
    FlatteningKeepsAnyOf(n.edges, q);
  }

  lemma {:induction false} FlatteningKeepsAnyOf(es: seq<Edge>, q: Query)
    requires forall e :: e in es && Live(e, q) && CanFlatten(e) ==> UnionLike(e.to) && WellShaped(e.to, q)
    ensures AnyOf(FlattenedFrom(es, q), q) == AnyOf(es, q)
    decreases es
  {
    if es != [] {
      FlatteningKeepsEdge(es[0], q);
      FlatteningKeepsAnyOf(es[1..], q);
      AnyOfConcat(FlattenedEdge(es[0], q), FlattenedFrom(es[1..], q), q);
    }
  }

  lemma {:induction false} FlatteningKeepsEdge(e: Edge, q: Query)
    requires Live(e, q) && CanFlatten(e) ==> UnionLike(e.to) && WellShaped(e.to, q)
    ensures AnyOf(FlattenedEdge(e, q), q) == if Dropped(e, q) then {} else EdgeMeaning(e, q)
    decreases e
  {
    if Live(e, q) && CanFlatten(e) {
      FlatteningKeepsMeaning(e.to, q);
    } else if Live(e, q) && !Dropped(e, q) {
      assert AnyOf([e], q) == EdgeMeaning(e, q);
    }
  }

  /** The operands of a node seen as one union: what its live edges lead to through nothing but unions. */
  ghost predicate Reached(n: Node, e: Edge, q: Query)
    decreases n
  {
    exists d :: && d in n.edges && d.weighted && (q.wild ==> d.wildcard)
                && if Operand(d) then d == e else Reached(d.to, e, q)
  }

  /** Flattening finds the operands, and on the recursive path those that do not lead back to the relation. */
  lemma {:induction false} FlattenedAreReached(n: Node, e: Edge, q: Query)
    ensures e in Flattened(n, q) <==> Reached(n, e, q) && !(q.recursivePath && e.recursive)
    decreases n, 1
  {
    FlattenedFromAreReached(n, n.edges, e, q);
  }

  ghost predicate ReachedFrom(es: seq<Edge>, e: Edge, q: Query) {
    exists d :: && d in es && d.weighted && (q.wild ==> d.wildcard)
                && if Operand(d) then d == e else Reached(d.to, e, q)
  }

  lemma {:induction false} FlattenedFromAreReached(n: Node, es: seq<Edge>, e: Edge, q: Query)
    requires forall d :: d in es ==> d in n.edges
    ensures e in FlattenedFrom(es, q) <==> ReachedFrom(es, e, q) && !(q.recursivePath && e.recursive)
    decreases n, 0, |es|
  {
    if es != [] {
      var d := es[0];
      assert d in n.edges;
      FlattenedFromAreReached(n, es[1..], e, q);
      if d.weighted && (q.wild ==> d.wildcard) && !Operand(d) {
        FlattenedAreReached(d.to, e, q);
      }
      assert ReachedFrom(es, e, q) <==>
             || ReachedFrom(es[1..], e, q)
             || (d.weighted && (q.wild ==> d.wildcard) && if Operand(d) then d == e else Reached(d.to, e, q)) by {
        if x :| && x in es && x.weighted && (q.wild ==> x.wildcard)
                && if Operand(x) then x == e else Reached(x.to, e, q) {
          assert x == d || x in es[1..];
        }
      }
    }
  }

  lemma {:induction false} AnyOfMember(es: seq<Edge>, q: Query, x: Id)
    ensures x in AnyOf(es, q) <==> exists e :: e in es && !Dropped(e, q) && x in EdgeMeaning(e, q)
    decreases |es|
  {
    if es != [] {
      AnyOfMember(es[1..], q, x);
      if e :| e in es && !Dropped(e, q) && x in EdgeMeaning(e, q) {
        assert e == es[0] || e in es[1..];
      }
      assert es[0] in es;
    }
  }

  /** A union means what its operands mean; on the recursive path, those that do not lead back to the relation. */
  lemma UnionMeans(n: Node, q: Query, x: Id)
    requires WellShaped(n, q) && UnionLike(n)
    ensures x in NodeMeaning(n, q) <==>
              exists e :: Reached(n, e, q) && !(q.recursivePath && e.recursive) && x in EdgeMeaning(e, q)
  {
    FlatteningKeepsMeaning(n, q);
    AnyOfMember(Flattened(n, q), q, x);
    forall e
      ensures e in Flattened(n, q) <==> Reached(n, e, q) && !(q.recursivePath && e.recursive)
    {
      FlattenedAreReached(n, e, q);
    }
  }

  function Keep(es: seq<Edge>, recursive: bool): seq<Edge> {
    if es == [] then [] else (if es[0].recursive == recursive then [es[0]] else []) + Keep(es[1..], recursive)
  }

  lemma {:induction false} KeepConcat(a: seq<Edge>, b: seq<Edge>, recursive: bool)
    ensures Keep(a + b, recursive) == Keep(a, recursive) + Keep(b, recursive)
    decreases |a|
  {
    if a == [] {
      assert a + b == b;
    } else {
      assert (a + b)[1..] == a[1..] + b;
      KeepConcat(a[1..], b, recursive);
      var h := if a[0].recursive == recursive then [a[0]] else [];
      assert Keep(a + b, recursive) == h + Keep(a[1..] + b, recursive);
      assert h + (Keep(a[1..], recursive) + Keep(b, recursive)) == h + Keep(a[1..], recursive) + Keep(b, recursive);
    }
  }

  /** On the recursive path exactly the recursive edges are missing from the full result. */
  lemma RecursivePathDropsRecursiveEdges(n: Node, wild: bool)
    ensures var all := Flattened(n, Query(wild, false));
            && Flattened(n, Query(wild, true)) == Keep(all, false)
            && multiset(all) == multiset(Flattened(n, Query(wild, true))) + multiset(Keep(all, true))
  {
    RecursivePathKeeps(n.edges, wild);
    KeepPartitions(Flattened(n, Query(wild, false)));
  }

  lemma {:induction false} RecursivePathKeeps(es: seq<Edge>, wild: bool)
    ensures FlattenedFrom(es, Query(wild, true)) == Keep(FlattenedFrom(es, Query(wild, false)), false)
    decreases es
  {
    if es != [] {
      RecursivePathKeepsEdge(es[0], wild);
      RecursivePathKeeps(es[1..], wild);
      KeepConcat(FlattenedEdge(es[0], Query(wild, false)), FlattenedFrom(es[1..], Query(wild, false)), false);
    }
  }

  lemma {:induction false} RecursivePathKeepsEdge(e: Edge, wild: bool)
    ensures FlattenedEdge(e, Query(wild, true)) == Keep(FlattenedEdge(e, Query(wild, false)), false)
    decreases e
  {
    if e.weighted && (wild ==> e.wildcard) && CanFlatten(e) {
      RecursivePathKeeps(e.to.edges, wild);
    }
  }

  lemma {:induction false} KeepPartitions(es: seq<Edge>)
    ensures multiset(es) == multiset(Keep(es, false)) + multiset(Keep(es, true))
  {
    if es != [] {
      KeepPartitions(es[1..]);
      assert es == [es[0]] + es[1..];
    }
  }
}
