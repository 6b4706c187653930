/** The bottom-up evaluation of the model graph, which turns a node into a sorted stream of the objects it grants. */
module GraphEvaluation {
  import opened Ids
  import opened Sorted
  import opened Channels
  import opened BottomUp
  import opened ModelGraph
  import opened GraphStreams

  method ResolveEdge(e: Edge, q: Query) returns (r: Result)
    requires TameEdge(e, q) && Live(e, q)
    ensures r.Ok? <==> ResolvableEdge(e, q)
    ensures r.Ok? ==> CarriesEdge(Source(Delivered(r.msgs), FailureOf(r.msgs)), e, q)
    decreases EdgeSize(e), 0
  {
    if e.kind == DirectEdge {
      if !Terminal(e.to) {
        return Err;
      }
      // one message with one iterator over everything the datastore returned
      var msgs := [Chunk(e.stored.items)] + if e.stored.err == DONE then [] else [Failure(e.stored.err)];
      LeafDelivers(e.stored, msgs);
      LeafIsFaithful(e, q);
      return Ok(msgs);
    }
    if e.kind == TTUEdge {
      return Err;
    }
    r := ResolveRewrite(e.to, q);
    if r.Ok? {
      NoEmptyMeant(e.to, q);
      EdgeIsFaithful(e, q, Source(Delivered(r.msgs), FailureOf(r.msgs)));
    }
  }

  /** The iterators over the operands of a set operation; operands that cannot reach the user type are left out. */
  method Operands(edges: seq<Edge>, q: Query, ghost bound: nat) returns (ok: bool, iters: seq<Source>)
    requires forall e :: e in edges ==> EdgeSize(e) < bound
    requires forall e :: e in edges && e.weighted ==> TameEdge(e, q) && Live(e, q)
    ensures ok <==> forall e :: e in edges && e.weighted ==> ResolvableEdge(e, q)
    ensures ok ==> CarryEdges(iters, Weighted(edges), q)
    decreases bound, 1
  {
    ok, iters := true, [];
    for i := 0 to |edges|
      invariant CarryEdges(iters, Weighted(edges[..i]), q)
      invariant forall e :: e in edges[..i] && e.weighted ==> ResolvableEdge(e, q)
    {
      var edge := edges[i];
      assert edges[..i + 1] == edges[..i] + [edge];
      WeightedConcat(edges[..i], [edge]);
      if !edge.weighted {
        continue;
      }
      var producer := ResolveEdge(edge, q);
      if producer.Err? {
        return false, [];
      }
      var it := ReadAll(producer.msgs);
      iters := iters + [it];
    }
    assert edges[..|edges|] == edges;
  }

  /** A tame node is turned into a sorted stream, which on an exact tree carries exactly the ids the node means. */
  method ResolveRewrite(node: Node, q: Query) returns (r: Result)
    requires TameNode(node, q)
    ensures r.Ok? <==> ResolvableNode(node, q)
    ensures r.Ok? ==> Carries(r.msgs, node, q)
    decreases Size(node), 3
  {
    if UnionLike(node) {
      r := Unite(node, q);
    } else if node.kind == IntersectionOperator {
      if q.wild && exists e :: e in node.edges && !e.wildcard {
        DeadOperandEmptiesIntersection(node.edges, q);
        DeadIntersectionIsFaithful(node, q);
        return Ok([]);
      }
      r := Intersect(node, q);
    } else if node.kind == ExclusionOperator {
      if q.wild {
        return Err;
      }
      r := Exclude(node, q);
    } else {
      return Err;
    }
  }

  method Unite(node: Node, q: Query) returns (r: Result)
    requires TameNode(node, q) && UnionLike(node)
    ensures r.Ok? <==> ResolvableNode(node, q)
    ensures r.Ok? ==> Carries(r.msgs, node, q)
    decreases Size(node), 2
  {
    var edges := FlattenNode(node, q);
    forall e | e in edges
      ensures Live(e, q) && !Dropped(e, q) && TameEdge(e, q) && EdgeSize(e) < Size(node)
      ensures ResolvableNode(node, q) ==> ResolvableEdge(e, q)
      ensures (StrictNode(node, q) ==> StrictEdge(e, q)) && (ExactNode(node, q) ==> ExactEdge(e, q))
    {
      FlattenedIsTame(node, q, e);
    }
    TameIsWellShaped(node, q);
    FlatteningKeepsMeaning(node, q);
    var ok, iters := Operands(edges, q, Size(node));
    if !ResolvableNode(node, q) {
      ghost var e := UnresolvedOperand(node, q);
    }
    if !ok {
      return Err;
    }
    UnweightedEdgesMeanNothing(edges, q);
    CarriedIsSorted(iters, edges, q);
    if ExactNode(node, q) {
      ExactMean(iters, edges, q);
      MembersAreAnyOf(Items(iters), edges, q);
    }
    var msgs := ResolveUnion(iters);
    UniteIsFaithful(node, q, iters, msgs);
    return Ok(msgs);
  }

  method Intersect(node: Node, q: Query) returns (r: Result)
    requires TameNode(node, q) && node.kind == IntersectionOperator
    requires q.wild ==> forall e :: e in node.edges ==> e.wildcard
    ensures r.Ok? <==> ResolvableNode(node, q)
    ensures r.Ok? ==> Carries(r.msgs, node, q)
    decreases Size(node), 2
  {
    IntersectOperands(node, q);
    OperandsAreSmaller(node);
    OperandsDecide(node, q);
    var ok, iters := Operands(node.edges, q, Size(node));
    if !ok {
      return Err;
    }
    CarriedIsSorted(iters, node.edges, q);
    var msgs := ResolveIntersection(iters);
    IntersectOrderly(node, q, iters, msgs);
    IntersectIsFaithful(node, q, iters, Source(Delivered(msgs), FailureOf(msgs)));
    return Ok(msgs);
  }

  method Exclude(node: Node, q: Query) returns (r: Result)
    requires TameNode(node, q) && node.kind == ExclusionOperator && !q.wild
    ensures r.Ok? <==> ResolvableNode(node, q)
    ensures r.Ok? ==> Carries(r.msgs, node, q)
    decreases Size(node), 2
  {
    OperandsAreSmaller(node);
    OperandsDecide(node, q);
    var ok, iters := Operands(node.edges, q, Size(node));
    if !ok {
      return Err;
    }
    WeightedPair(node.edges);
    CarriedIsSorted(iters, Weighted(node.edges), q);
    var msgs := ResolveDifference(iters);
    ExcludeOrderly(node, q, iters, msgs);
    ExcludeIsFaithful(node, q, iters, Source(Delivered(msgs), FailureOf(msgs)));
    return Ok(msgs);
  }
}
