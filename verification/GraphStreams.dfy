/**
 What the stream of objects promises that the bottom-up evaluation makes of a node of the model graph, also
 when reads fail, and that each set operation keeps the promise.
 */
module GraphStreams {
  import opened Ids
  import opened Sorted
  import opened Channels
  import opened BottomUp
  import opened ModelGraph

  /**
   What the graph builder and the datastore guarantee along the live edges: direct edges read ids in
   non-descending order, intersections have only weighted operands, and an exclusion has a weighted base
   and one subtracted operand.
   */
  predicate TameEdge(e: Edge, q: Query)
    decreases e
  {
    if e.kind == DirectEdge then NonDescendingItems(e.stored) else TameNode(e.to, q)
  }

  predicate NonDescendingItems(s: Source) {
    forall i, j :: 0 <= i < j < |s.items| ==> s.items[i] <= s.items[j]
  }

  predicate AscendingItems(s: Source) {
    forall i, j :: 0 <= i < j < |s.items| ==> s.items[i] < s.items[j]
  }

  /** No live leaf repeats an id. */
  predicate StrictEdge(e: Edge, q: Query)
    decreases e
  {
    if e.kind == DirectEdge then AscendingItems(e.stored) else StrictNode(e.to, q)
  }

  predicate StrictNode(n: Node, q: Query)
    decreases n
  {
    forall e :: e in n.edges && Used(n, e, q) ==> StrictEdge(e, q)
  }

  /** No live leaf fails, and no leaf in the base of an exclusion repeats an id. */
  predicate ExactEdge(e: Edge, q: Query)
    decreases e
  {
    if e.kind == DirectEdge then e.stored.err == DONE else ExactNode(e.to, q)
  }

  predicate ExactNode(n: Node, q: Query)
    decreases n
  {
    && (forall e :: e in n.edges && Used(n, e, q) ==> ExactEdge(e, q))
    && (n.kind == ExclusionOperator && n.edges != [] ==> StrictEdge(n.edges[0], q))
  }

  predicate TameNode(n: Node, q: Query)
    decreases n
  {
    && (UnionLike(n) ==>
          forall e :: e in n.edges && Used(n, e, q) ==> TameEdge(e, q) && (CanFlatten(e) ==> UnionLike(e.to)))
    && (!UnionLike(n) ==> forall e :: e in n.edges && e.weighted ==> TameEdge(e, q))
    && (n.kind == IntersectionOperator ==> n.edges != [] && forall e :: e in n.edges ==> e.weighted)
    && (n.kind == ExclusionOperator ==> |n.edges| == 2 && n.edges[0].weighted)
  }

  /** Evaluation never meets an edge or a node that the bottom-up resolver does not handle. */
  predicate ResolvableEdge(e: Edge, q: Query)
    decreases e
  {
    if e.kind == DirectEdge then e.to.kind == SpecificType || e.to.kind == SpecificTypeWildcard
    else e.kind != TTUEdge && ResolvableNode(e.to, q)
  }

  /**
   An exclusion is not handled for a wildcard request, and the operands of an intersection are not
   evaluated for one when some of them cannot lead to a wildcard.
   */
  predicate ResolvableNode(n: Node, q: Query)
    decreases n
  {
    && n.kind != SpecificType && n.kind != SpecificTypeWildcard && (n.kind == ExclusionOperator ==> !q.wild)
    && (|| (n.kind == IntersectionOperator && q.wild && exists e :: e in n.edges && !e.wildcard)
        || forall e :: e in n.edges && Used(n, e, q) ==> ResolvableEdge(e, q))
  }

  predicate Terminal(n: Node) { n.kind in {SpecificType, SpecificTypeWildcard} }

  datatype Result = Ok(msgs: seq<Msg>) | Err

  // ---------------------------------------------------------------- failed reads

  /** The source read to its end: a failed one may have missed something. */
  ghost predicate Fills(s: Source, full: Source) {
    full.err == DONE && s.items <= full.items && (s.err == DONE ==> full.items == s.items)
  }

  /** The same edge, with the leaves that are evaluated read to their ends. */
  ghost predicate CompletesEdge(e: Edge, full: Edge, q: Query)
    decreases e
  {
    && full.kind == e.kind && full.recursive == e.recursive
    && full.weighted == e.weighted && full.wildcard == e.wildcard
    && if e.kind == DirectEdge then full.to == e.to && Fills(e.stored, full.stored)
       else full.stored == e.stored && CompletesNode(e.to, full.to, q)
  }

  ghost predicate CompletesNode(n: Node, full: Node, q: Query)
    decreases n
  {
    && full.kind == n.kind && |full.edges| == |n.edges|
    && forall i :: 0 <= i < |n.edges| ==>
                     if Used(n, n.edges[i], q) then CompletesEdge(n.edges[i], full.edges[i], q)
                     else full.edges[i] == n.edges[i]
  }

  /** No leaf that is evaluated fails. */
  predicate QuietEdge(e: Edge, q: Query)
    decreases e
  {
    if e.kind == DirectEdge then e.stored.err == DONE else QuietNode(e.to, q)
  }

  predicate QuietNode(n: Node, q: Query)
    decreases n
  {
    forall e :: e in n.edges && Used(n, e, q) ==> QuietEdge(e, q)
  }

  predicate OneUsed(n: Node, q: Query) {
    forall i, j :: 0 <= i < j < |n.edges| ==> !Used(n, n.edges[i], q) || !Used(n, n.edges[j], q)
  }

  /** A union in which a leaf fails has nothing else to go on with. */
  predicate SteadyEdge(e: Edge, q: Query)
    decreases e
  {
    e.kind == DirectEdge || SteadyNode(e.to, q)
  }

  predicate SteadyNode(n: Node, q: Query)
    decreases n
  {
    || (UnionLike(n) && QuietNode(n, q))
    || ((UnionLike(n) ==> OneUsed(n, q)) && forall e :: e in n.edges && Used(n, e, q) ==> SteadyEdge(e, q))
  }

  /** Below an intersection, and in what is subtracted, unions are steady. */
  predicate HonestEdge(e: Edge, q: Query)
    decreases e
  {
    e.kind == DirectEdge || HonestNode(e.to, q)
  }

  predicate HonestNode(n: Node, q: Query)
    decreases n
  {
    match n.kind
    case IntersectionOperator => forall e :: e in n.edges && Used(n, e, q) ==> SteadyEdge(e, q)
    case ExclusionOperator =>
      && (n.edges != [] && Used(n, n.edges[0], q) ==> HonestEdge(n.edges[0], q))
      && (|n.edges| == 2 && Used(n, n.edges[1], q) ==> SteadyEdge(n.edges[1], q))
    case _ => forall e :: e in n.edges && Used(n, e, q) ==> HonestEdge(e, q)
  }

  /** A stream without an error is all of the set, the empty id aside. */
  ghost predicate Honestly(src: Source, whole: set<Id>) {
    src.err == DONE ==> Elems(src.items) - {EMPTY} == whole
  }

  /** And one with an error begins it: what is missing comes later. */
  ghost predicate Tells(src: Source, whole: set<Id>) {
    && Honestly(src, whole) && Elems(src.items) - {EMPTY} <= whole
    && forall x, v :: x in src.items && v in whole && v !in src.items ==> x <= v
  }

  /**
   What a stream promises about the node it comes from: it is in order, strictly so if no leaf repeats an
   id; and on an exact tree it ends without an error and carries exactly the meaning. If reads have failed, a
   stream that ends without an error carries the meaning of the tree as it would have been read in full.
   */
  ghost predicate Carries(msgs: seq<Msg>, n: Node, q: Query) {
    Orderly(msgs, n, q) && Faithful(Source(Delivered(msgs), FailureOf(msgs)), n, q)
  }

  ghost predicate Orderly(msgs: seq<Msg>, n: Node, q: Query) {
    && NonDescending(Delivered(msgs)) && (StrictNode(n, q) ==> Ascending(Delivered(msgs)))
    && (ExactNode(n, q) ==> FailureOf(msgs) == DONE && Elems(Delivered(msgs)) == NodeMeaning(n, q))
  }

  /** `full` is the tree with its leaves read to their ends, in order and without repetitions below an exclusion. */
  ghost predicate ReadInFull(n: Node, full: Node, q: Query) {
    CompletesNode(n, full, q) && TameNode(full, q) && ExactNode(full, q)
  }

  ghost predicate EdgeReadInFull(e: Edge, full: Edge, q: Query) {
    CompletesEdge(e, full, q) && TameEdge(full, q) && ExactEdge(full, q)
  }

  ghost predicate Faithful(src: Source, n: Node, q: Query) {
    forall full :: ReadInFull(n, full, q) ==> Promises(src, n, full, q)
  }

  ghost predicate EdgeFaithful(src: Source, e: Edge, q: Query) {
    forall full :: EdgeReadInFull(e, full, q) ==> EdgePromises(src, e, full, q)
  }

  ghost predicate Promises(src: Source, n: Node, full: Node, q: Query) {
    && (HonestNode(n, q) ==> Honestly(src, NodeMeaning(full, q)))
    && (SteadyNode(n, q) ==> Tells(src, NodeMeaning(full, q)))
  }

  ghost predicate CarriesEdge(src: Source, e: Edge, q: Query) {
    && NonDescending(src.items) && (StrictEdge(e, q) ==> Ascending(src.items))
    && (ExactEdge(e, q) ==> src.err == DONE && Elems(src.items) - {EMPTY} == EdgeMeaning(e, q))
    && EdgeFaithful(src, e, q)
  }

  ghost predicate EdgePromises(src: Source, e: Edge, full: Edge, q: Query) {
    && (HonestEdge(e, q) ==> Honestly(src, EdgeMeaning(full, q)))
    && (SteadyEdge(e, q) ==> Tells(src, EdgeMeaning(full, q)))
  }

  function Size(n: Node): nat
    decreases n
  {
    1 + SizeAll(n.edges)
  }

  function SizeAll(es: seq<Edge>): nat
    decreases es
  {
    if es == [] then 0 else EdgeSize(es[0]) + SizeAll(es[1..])
  }

  function EdgeSize(e: Edge): nat
    decreases e
  {
    1 + Size(e.to)
  }

  lemma {:induction false} MemberIsSmaller(es: seq<Edge>, e: Edge)
    requires e in es
    ensures EdgeSize(e) <= SizeAll(es)
  {
    if e != es[0] {
      MemberIsSmaller(es[1..], e);
    }
  }

  /** Flattening a tame union finds live, tame and smaller edges. */
  lemma {:induction false} FlattenedIsTame(n: Node, q: Query, e: Edge)
    requires TameNode(n, q) && UnionLike(n)
    ensures e in Flattened(n, q) ==> Live(e, q) && !Dropped(e, q) && TameEdge(e, q) && EdgeSize(e) < Size(n)
    ensures e in Flattened(n, q) && ResolvableNode(n, q) ==> ResolvableEdge(e, q)
    ensures e in Flattened(n, q) && StrictNode(n, q) ==> StrictEdge(e, q)
    ensures e in Flattened(n, q) && ExactNode(n, q) ==> ExactEdge(e, q)
    ensures e in Flattened(n, q) && HonestNode(n, q) ==> HonestEdge(e, q)
    decreases n, 1
  {
    FlattenedFromIsTame(n, n.edges, q, e);
  }

  lemma OperandsDecide(n: Node, q: Query)
    requires n.kind == IntersectionOperator || (n.kind == ExclusionOperator && !q.wild)
    requires q.wild ==> forall e :: e in n.edges ==> e.wildcard
    ensures ResolvableNode(n, q) <==> forall e :: e in n.edges && e.weighted ==> ResolvableEdge(e, q)
  {
  }

  lemma {:induction false} FlattenedHas(es: seq<Edge>, i: nat, q: Query, e: Edge)
    requires i < |es| && e in FlattenedEdge(es[i], q)
    ensures e in FlattenedFrom(es, q)
    decreases |es|
  {
    if i > 0 {
      FlattenedHas(es[1..], i - 1, q, e);
    }
  }

  lemma UnresolvedEdge(n: Node, q: Query) returns (i: nat)
    requires UnionLike(n) && !ResolvableNode(n, q)
    ensures i < |n.edges| && Used(n, n.edges[i], q) && !ResolvableEdge(n.edges[i], q)
  {
    var d :| d in n.edges && Used(n, d, q) && !ResolvableEdge(d, q);
    i :| 0 <= i < |n.edges| && n.edges[i] == d;
  }

  /** A union that cannot be resolved has an operand that cannot. */
  lemma {:induction false} UnresolvedOperand(n: Node, q: Query) returns (e: Edge)
    requires TameNode(n, q) && UnionLike(n) && !ResolvableNode(n, q)
    ensures e in Flattened(n, q) && !ResolvableEdge(e, q)
    decreases n
  {
    var i := UnresolvedEdge(n, q);
    e := n.edges[i];
    assert e in n.edges;
    if CanFlatten(e) {
      e := UnresolvedOperand(e.to, q);
    }
    FlattenedHas(n.edges, i, q, e);
  }

  lemma {:induction false} TameIsWellShaped(n: Node, q: Query)
    requires TameNode(n, q) && UnionLike(n)
    ensures WellShaped(n, q)
    decreases n
  {
    forall d | d in n.edges && Live(d, q) && CanFlatten(d)
      ensures UnionLike(d.to) && WellShaped(d.to, q)
    {
      assert Used(n, d, q) && TameEdge(d, q);
      TameIsWellShaped(d.to, q);
    }
  }

  lemma {:induction false} FlattenedFromIsTame(n: Node, es: seq<Edge>, q: Query, e: Edge)
    requires TameNode(n, q) && UnionLike(n) && forall d :: d in es ==> d in n.edges
    ensures e in FlattenedFrom(es, q) ==>
              Live(e, q) && !Dropped(e, q) && TameEdge(e, q) && EdgeSize(e) <= SizeAll(es)
    ensures e in FlattenedFrom(es, q) && ResolvableNode(n, q) ==> ResolvableEdge(e, q)
    ensures e in FlattenedFrom(es, q) && StrictNode(n, q) ==> StrictEdge(e, q)
    ensures e in FlattenedFrom(es, q) && ExactNode(n, q) ==> ExactEdge(e, q)
    ensures e in FlattenedFrom(es, q) && HonestNode(n, q) ==> HonestEdge(e, q)
    decreases n, 0, |es|
  {
    if es != [] {
      var d := es[0];
      assert d in n.edges;
      FlattenedFromIsTame(n, es[1..], q, e);
      assert e in FlattenedFrom(es, q) ==>
          e in FlattenedEdge(d, q) || e in FlattenedFrom(es[1..], q);
      if Live(d, q) && !Dropped(d, q) {
        assert Used(n, d, q) && TameEdge(d, q) && (ResolvableNode(n, q) ==> ResolvableEdge(d, q));
        assert (StrictNode(n, q) ==> StrictEdge(d, q)) && (ExactNode(n, q) ==> ExactEdge(d, q));
        assert HonestNode(n, q) ==> HonestEdge(d, q);
        if CanFlatten(d) {
          FlattenedIsTame(d.to, q, e);
        }
      }
    }
  }

  function Weighted(es: seq<Edge>): seq<Edge> {
    if es == [] then [] else (if es[0].weighted then [es[0]] else []) + Weighted(es[1..])
  }

  lemma {:induction false} WeightedConcat(a: seq<Edge>, b: seq<Edge>)
    ensures Weighted(a + b) == Weighted(a) + Weighted(b)
    decreases |a|
  {
    if a == [] {
      assert a + b == b;
    } else {
      assert (a + b)[1..] == a[1..] + b;
      WeightedConcat(a[1..], b);
      var h := if a[0].weighted then [a[0]] else [];
      assert Weighted(a + b) == h + Weighted(a[1..] + b);
      assert h + (Weighted(a[1..]) + Weighted(b)) == h + Weighted(a[1..]) + Weighted(b);
    }
  }

  lemma {:induction false} UnweightedEdgesMeanNothing(es: seq<Edge>, q: Query)
    ensures AnyOf(Weighted(es), q) == AnyOf(es, q)
    ensures (forall e :: e in es ==> e.weighted) ==> Weighted(es) == es
    decreases |es|
  {
    if es != [] {
      UnweightedEdgesMeanNothing(es[1..], q);
      AnyOfConcat(if es[0].weighted then [es[0]] else [], Weighted(es[1..]), q);
    }
  }

  ghost predicate CarryEdges(iters: seq<Source>, es: seq<Edge>, q: Query) {
    |iters| == |es| && forall i :: 0 <= i < |es| ==> CarriesEdge(iters[i], es[i], q)
  }

  lemma CarriedIsSorted(iters: seq<Source>, es: seq<Edge>, q: Query)
    requires CarryEdges(iters, es, q)
    ensures AllNonDescending(Items(iters))
    ensures (forall e :: e in es ==> StrictEdge(e, q)) ==> AllAscending(Items(iters))
    ensures (forall e :: e in es ==> ExactEdge(e, q)) ==> forall it :: it in iters ==> it.err == DONE
  {
    forall i | 0 <= i < |iters|
      ensures NonDescending(Items(iters)[i]) && es[i] in es
    {
      assert CarriesEdge(iters[i], es[i], q);
    }
  }

  /** Each stream carries what its edge means, the empty id aside. */
  ghost predicate Mean(ss: seq<seq<Id>>, es: seq<Edge>, q: Query) {
    |ss| == |es| && forall i :: 0 <= i < |es| ==> Elems(ss[i]) - {EMPTY} == EdgeMeaning(es[i], q)
  }

  lemma ExactMean(iters: seq<Source>, es: seq<Edge>, q: Query)
    requires CarryEdges(iters, es, q) && forall e :: e in es ==> ExactEdge(e, q)
    ensures Mean(Items(iters), es, q)
  {
    forall i | 0 <= i < |es|
      ensures Elems(Items(iters)[i]) - {EMPTY} == EdgeMeaning(es[i], q)
    {
      assert CarriesEdge(iters[i], es[i], q) && es[i] in es;
    }
  }

  lemma {:induction false} MembersAreAnyOf(ss: seq<seq<Id>>, es: seq<Edge>, q: Query)
    requires Mean(ss, es, q) && forall e :: e in es ==> !Dropped(e, q)
    ensures Members(ss) - {EMPTY} == AnyOf(es, q)
    decreases |es|
  {
    if es != [] {
      MembersAreAnyOf(ss[1..], es[1..], q);
      MembersSplit(ss);
      assert Elems(ss[0]) - {EMPTY} == EdgeMeaning(es[0], q) && es[0] in es;
      assert Members(ss) - {EMPTY} == (Elems(ss[0]) - {EMPTY}) + (Members(ss[1..]) - {EMPTY});
    }
  }

  lemma MembersSplit(ss: seq<seq<Id>>)
    requires ss != []
    ensures Members(ss) == Elems(ss[0]) + Members(ss[1..])
  {
  }

  lemma {:induction false} CommonIsAllOf(ss: seq<seq<Id>>, es: seq<Edge>, q: Query)
    requires Mean(ss, es, q)
    ensures Common(ss) - {EMPTY} == AllOf(es, q)
    decreases |es|
  {
    if es != [] {
      assert Elems(ss[0]) - {EMPTY} == EdgeMeaning(es[0], q);
      if |es| == 1 {
        assert Common(ss) == Elems(ss[0]);
      } else {
        CommonIsAllOf(ss[1..], es[1..], q);
        CommonSplit(ss);
        assert Common(ss) - {EMPTY} == (Elems(ss[0]) - {EMPTY}) * (Common(ss[1..]) - {EMPTY});
      }
    }
  }

  lemma CommonSplit(ss: seq<seq<Id>>)
    requires |ss| >= 2
    ensures Common(ss) == Elems(ss[0]) * Common(ss[1..])
  {
    MembersSplit(ss);
    forall v | v in Common(ss)
      ensures v in Common(ss[1..])
    {
      assert v in ss[1] && v in ss[1..][0];
    }
    forall v | v in Elems(ss[0]) && v in Common(ss[1..])
      ensures v in Common(ss)
    {
      forall i | 0 <= i < |ss|
        ensures v in ss[i]
      {
        assert i > 0 ==> v in ss[1..][i - 1];
      }
    }
  }

  // ---------------------------------------------------------------- trees read in full

  lemma {:induction false} QuietIsComplete(n: Node, full: Node, q: Query)
    requires QuietNode(n, q) && CompletesNode(n, full, q)
    ensures full == n
    decreases n
  {
    forall i | 0 <= i < |n.edges|
      ensures full.edges[i] == n.edges[i]
    {
      var e, f := n.edges[i], full.edges[i];
      if Used(n, e, q) {
        assert e in n.edges;
        if e.kind != DirectEdge {
          QuietIsComplete(e.to, f.to, q);
        }
        assert f.stored == e.stored && f.to == e.to;
      }
    }
    assert full.edges == n.edges;
  }

  lemma SameUse(n: Node, full: Node, q: Query, i: nat)
    requires CompletesNode(n, full, q) && i < |n.edges| && Used(n, n.edges[i], q)
    ensures CompletesEdge(n.edges[i], full.edges[i], q) && Used(full, full.edges[i], q)
  {
    var e, f := n.edges[i], full.edges[i];
    assert CompletesEdge(e, f, q);
    assert f.to.kind == e.to.kind by {
      assert e.kind != DirectEdge ==> CompletesNode(e.to, f.to, q);
    }
  }

  lemma {:induction false} StrictBefore(e: Edge, full: Edge, q: Query)
    requires CompletesEdge(e, full, q) && StrictEdge(full, q)
    ensures StrictEdge(e, q)
    decreases e
  {
    if e.kind != DirectEdge {
      forall d | d in e.to.edges && Used(e.to, d, q)
        ensures StrictEdge(d, q)
      {
        var i :| 0 <= i < |e.to.edges| && e.to.edges[i] == d;
        SameUse(e.to, full.to, q, i);
        assert full.to.edges[i] in full.to.edges;
        StrictBefore(d, full.to.edges[i], q);
      }
    }
  }

  /** The edge lists of a union and of the union read in full. */
  ghost predicate InStep(n: Node, es: seq<Edge>, fs: seq<Edge>, q: Query) {
    && |fs| == |es|
    && forall i :: 0 <= i < |es| ==> if Used(n, es[i], q) then CompletesEdge(es[i], fs[i], q) else fs[i] == es[i]
  }

  ghost predicate AllComplete(es: seq<Edge>, fs: seq<Edge>, q: Query) {
    |fs| == |es| && forall i :: 0 <= i < |es| ==> CompletesEdge(es[i], fs[i], q)
  }

  lemma AllCompleteConcat(a: seq<Edge>, fa: seq<Edge>, b: seq<Edge>, fb: seq<Edge>, q: Query)
    requires AllComplete(a, fa, q) && AllComplete(b, fb, q)
    ensures AllComplete(a + b, fa + fb, q)
  {
  }

  lemma {:induction false} FlattenInStep(n: Node, full: Node, q: Query)
    requires TameNode(n, q) && UnionLike(n) && CompletesNode(n, full, q)
    ensures AllComplete(Flattened(n, q), Flattened(full, q), q)
    decreases n, 1
  {
    FlattenFromInStep(n, n.edges, full.edges, q);
  }

  lemma {:induction false} FlattenFromInStep(n: Node, es: seq<Edge>, fs: seq<Edge>, q: Query)
    requires TameNode(n, q) && UnionLike(n) && InStep(n, es, fs, q) && forall d :: d in es ==> d in n.edges
    ensures AllComplete(FlattenedFrom(es, q), FlattenedFrom(fs, q), q)
    decreases n, 0, |es|
  {
    if es != [] {
      assert es[0] in n.edges;
      FlattenFromInStep(n, es[1..], fs[1..], q);
      FlattenEdgeInStep(n, es[0], fs[0], q);
      AllCompleteConcat(FlattenedEdge(es[0], q), FlattenedEdge(fs[0], q), FlattenedFrom(es[1..], q),
                        FlattenedFrom(fs[1..], q), q);
    }
  }

  lemma {:induction false} FlattenEdgeInStep(n: Node, e: Edge, f: Edge, q: Query)
    requires TameNode(n, q) && UnionLike(n) && e in n.edges
    requires if Used(n, e, q) then CompletesEdge(e, f, q) else f == e
    ensures AllComplete(FlattenedEdge(e, q), FlattenedEdge(f, q), q)
    decreases n, 0, 0
  {
    if Used(n, e, q) && CanFlatten(e) {
      assert TameEdge(e, q);
      FlattenInStep(e.to, f.to, q);
    }
  }

  /** A steady union in which a leaf fails has one operand. */
  lemma {:induction false} SteadyUnion(n: Node, q: Query)
    requires TameNode(n, q) && UnionLike(n) && SteadyNode(n, q)
    ensures QuietNode(n, q) || (|Flattened(n, q)| <= 1 && forall e :: e in Flattened(n, q) ==> SteadyEdge(e, q))
    decreases n
  {
    if !QuietNode(n, q) {
      var e :| e in n.edges && Used(n, e, q) && !QuietEdge(e, q);
      var i :| 0 <= i < |n.edges| && n.edges[i] == e;
      assert SteadyEdge(e, q) && TameEdge(e, q);
      OnlyFlattened(n, n.edges, i, q);
      if CanFlatten(e) {
        SteadyUnion(e.to, q);
      }
    }
  }

  lemma {:induction false} OnlyFlattened(n: Node, es: seq<Edge>, i: nat, q: Query)
    requires UnionLike(n) && i < |es|
    requires forall j :: 0 <= j < |es| && j != i ==> !Used(n, es[j], q)
    ensures FlattenedFrom(es, q) == FlattenedEdge(es[i], q)
    decreases |es|
  {
    if i == 0 {
      NoneFlattened(n, es[1..], q);
    } else {
      assert !Used(n, es[0], q);
      OnlyFlattened(n, es[1..], i - 1, q);
      assert FlattenedEdge(es[0], q) == [];
    }
  }

  lemma {:induction false} NoneFlattened(n: Node, es: seq<Edge>, q: Query)
    requires UnionLike(n) && forall j :: 0 <= j < |es| ==> !Used(n, es[j], q)
    ensures FlattenedFrom(es, q) == []
    decreases |es|
  {
    if es != [] {
      assert !Used(n, es[0], q);
      NoneFlattened(n, es[1..], q);
    }
  }

  // ---------------------------------------------------------------- streams read in full

  lemma AppendGreatest(s: seq<Id>, m: Id)
    requires Ascending(s) && forall x :: x in Elems(s) ==> x < m
    ensures Ascending(s + [m]) && Elems(s + [m]) == Elems(s) + {m}
  {
    forall x | x in s
      ensures x < m
    {
      assert x in Elems(s);
    }
    AppendKeepsOrder(s, m);
  }

  lemma {:induction false} InOrder(S: set<Id>) returns (s: seq<Id>)
    ensures Ascending(s) && Elems(s) == S && (S == {} ==> s == [])
    decreases |S|
  {
    s := [];
    if S != {} {
      var m := Greatest(S);
      var before := InOrder(S - {m});
      AppendGreatest(before, m);
      s := before + [m];
    }
  }

  lemma {:induction false} Greatest(S: set<Id>) returns (m: Id)
    requires S != {}
    ensures m in S && forall x :: x in S ==> x <= m
    decreases |S|
  {
    var x :| x in S;
    m := x;
    if S != {x} {
      var k := Greatest(S - {x});
      m := if k > x then k else x;
      assert forall y :: y in S ==> y == x || y in S - {x};
    }
  }

  /** A stream that tells a set can be completed to carry it. */
  lemma FillUp(src: Source, whole: set<Id>) returns (more: seq<Id>)
    requires Tells(src, whole) && NonDescending(src.items) && EMPTY !in whole
    ensures NonDescending(src.items + more) && Elems(src.items + more) - {EMPTY} == whole
    ensures src.err == DONE ==> more == []
    ensures Ascending(src.items) ==> Ascending(src.items + more)
  {
    more := InOrder(whole - Elems(src.items));
    forall i, j | 0 <= i < |src.items| && 0 <= j < |more|
      ensures src.items[i] < more[j]
    {
      assert more[j] in Elems(more) && src.items[i] in src.items;
    }
    assert Elems(src.items + more) == Elems(src.items) + Elems(more);
  }

  ghost predicate AllTell(iters: seq<Source>, fs: seq<Edge>, q: Query) {
    |iters| == |fs| && forall i :: 0 <= i < |fs| ==> Tells(iters[i], EdgeMeaning(fs[i], q))
  }

  lemma {:induction false} FillUpAll(iters: seq<Source>, fs: seq<Edge>, q: Query, n: nat) returns (more: seq<seq<Id>>)
    requires AllTell(iters, fs, q) && AllNonDescending(Items(iters)) && n <= |fs|
    ensures |more| == n && forall i :: 0 <= i < n ==>
                             && NonDescending(iters[i].items + more[i])
                             && Elems(iters[i].items + more[i]) - {EMPTY} == EdgeMeaning(fs[i], q)
                             && (iters[i].err == DONE ==> more[i] == [])
    decreases n
  {
    more := [];
    if n > 0 {
      more := FillUpAll(iters, fs, q, n - 1);
      NoEmptyMeantEdge(fs[n - 1], q);
      assert NonDescending(Items(iters)[n - 1]);
      var m := FillUp(iters[n - 1], EdgeMeaning(fs[n - 1], q));
      more := more + [m];
    }
  }

  lemma Filled(iters: seq<Source>, fs: seq<Edge>, q: Query) returns (more: seq<seq<Id>>)
    requires AllTell(iters, fs, q) && AllNonDescending(Items(iters))
    ensures Missed(iters, more) && Mean(Extended(Items(iters), more), fs, q)
  {
    more := FillUpAll(iters, fs, q, |fs|);
  }

  lemma LeafDelivers(s: Source, msgs: seq<Msg>)
    requires msgs == [Chunk(s.items)] + if s.err == DONE then [] else [Failure(s.err)]
    ensures Delivered(msgs) == s.items && FailureOf(msgs) == s.err
  {
    assert msgs[1..] == if s.err == DONE then [] else [Failure(s.err)];
  }

  lemma {:induction false} NoEmptyMeant(n: Node, q: Query)
    ensures EMPTY !in NodeMeaning(n, q)
    ensures EMPTY !in AnyOf(n.edges, q) && EMPTY !in AllOf(n.edges, q)
    decreases n, 1
  {
    NoEmptyMeantFrom(n.edges, q);
    if |n.edges| == 2 {
      NoEmptyMeantEdge(n.edges[0], q);
    }
  }

  lemma {:induction false} NoEmptyMeantFrom(es: seq<Edge>, q: Query)
    ensures EMPTY !in AnyOf(es, q) && EMPTY !in AllOf(es, q)
    decreases es, 0
  {
    if es != [] {
      NoEmptyMeantEdge(es[0], q);
      NoEmptyMeantFrom(es[1..], q);
    }
  }

  lemma {:induction false} NoEmptyMeantEdge(e: Edge, q: Query)
    ensures EMPTY !in EdgeMeaning(e, q)
    decreases e, 2
  {
    if Live(e, q) && e.kind != DirectEdge {
      NoEmptyMeant(e.to, q);
    }
  }

  lemma {:induction false} DeadOperandEmptiesIntersection(es: seq<Edge>, q: Query)
    requires exists e :: e in es && !Live(e, q)
    ensures AllOf(es, q) == {}
    decreases |es|
  {
    if |es| > 1 && Live(es[0], q) {
      var e :| e in es && !Live(e, q);
      assert e in es[1..];
      DeadOperandEmptiesIntersection(es[1..], q);
    }
  }

  lemma OperandsAreSmaller(n: Node)
    ensures forall e :: e in n.edges ==> EdgeSize(e) < Size(n)
  {
    forall e | e in n.edges
      ensures EdgeSize(e) < Size(n)
    {
      MemberIsSmaller(n.edges, e);
    }
  }

  /** The operands of an intersection that has no dead operand. */
  lemma IntersectOperands(n: Node, q: Query)
    requires TameNode(n, q) && n.kind == IntersectionOperator && (q.wild ==> forall e :: e in n.edges ==> e.wildcard)
    ensures Weighted(n.edges) == n.edges && forall e :: e in n.edges ==> Live(e, q) && TameEdge(e, q)
    ensures StrictNode(n, q) ==> forall e :: e in n.edges ==> StrictEdge(e, q)
    ensures ExactNode(n, q) ==> forall e :: e in n.edges ==> ExactEdge(e, q)
  {
    UnweightedEdgesMeanNothing(n.edges, q);
    assert !UnionLike(n) && forall e :: e in n.edges ==> Used(n, e, q);
  }

  lemma IntersectOrderly(n: Node, q: Query, iters: seq<Source>, msgs: seq<Msg>)
    requires TameNode(n, q) && n.kind == IntersectionOperator && (q.wild ==> forall e :: e in n.edges ==> e.wildcard)
    requires CarryEdges(iters, n.edges, q) && Elems(Delivered(msgs)) == Common(Items(iters)) - {EMPTY}
    requires NonDescending(Delivered(msgs)) && (AllAscending(Items(iters)) ==> Ascending(Delivered(msgs)))
    requires exists it :: it in iters && it.err == FailureOf(msgs)
    ensures Orderly(msgs, n, q)
  {
    IntersectOperands(n, q);
    CarriedIsSorted(iters, n.edges, q);
    if ExactNode(n, q) {
      ExactMean(iters, n.edges, q);
      CommonIsAllOf(Items(iters), n.edges, q);
    }
  }

  lemma WeightedPair(es: seq<Edge>)
    requires |es| == 2 && es[0].weighted
    ensures Weighted(es) == if es[1].weighted then es else [es[0]]
  {
    assert Weighted(es[1..]) == (if es[1].weighted then [es[1]] else []) + Weighted(es[2..]);
  }

  lemma ExactOperands(n: Node, q: Query)
    requires !q.wild && n.kind == ExclusionOperator && |n.edges| == 2 && n.edges[0].weighted && ExactNode(n, q)
    ensures ExactEdge(n.edges[0], q) && StrictEdge(n.edges[0], q)
    ensures if n.edges[1].weighted then ExactEdge(n.edges[1], q) else EdgeMeaning(n.edges[1], q) == {}
  {
    assert n.edges[0] in n.edges && n.edges[1] in n.edges;
  }

  lemma ExcludeMeans(n: Node, q: Query, iters: seq<Source>, out: seq<Id>)
    requires !q.wild && n.kind == ExclusionOperator && |n.edges| == 2 && n.edges[0].weighted && ExactNode(n, q)
    requires CarryEdges(iters, Pair(n), q)
    requires Elems(out) == Elems(iters[0].items) - Subtrahend(iters) - {EMPTY}
    ensures Elems(out) == NodeMeaning(n, q)
  {
    var base, sub := n.edges[0], n.edges[1];
    ExactOperands(n, q);
    assert CarriesEdge(iters[0], base, q);
    var B, S := EdgeMeaning(base, q), EdgeMeaning(sub, q);
    assert Subtrahend(iters) - {EMPTY} == S by {
      if sub.weighted {
        assert CarriesEdge(iters[1], sub, q);
      }
    }
    assert Elems(iters[0].items) - Subtrahend(iters) - {EMPTY} == B - S;
  }

  lemma ExactIsClean(n: Node, q: Query, iters: seq<Source>)
    requires !q.wild && n.kind == ExclusionOperator && |n.edges| == 2 && n.edges[0].weighted && ExactNode(n, q)
    requires CarryEdges(iters, Pair(n), q)
    ensures iters[0].err == DONE && (|iters| == 2 ==> iters[1].err == DONE) && Ascending(iters[0].items)
  {
    ExactOperands(n, q);
    assert CarriesEdge(iters[0], n.edges[0], q);
    if |iters| == 2 {
      assert CarriesEdge(iters[1], n.edges[1], q);
    }
  }

  lemma ExcludeOrderly(n: Node, q: Query, iters: seq<Source>, msgs: seq<Msg>)
    requires !q.wild && n.kind == ExclusionOperator && |n.edges| == 2 && n.edges[0].weighted
    requires CarryEdges(iters, Pair(n), q)
    requires FailureOf(msgs) == iters[0].err || (|iters| == 2 && FailureOf(msgs) == iters[1].err != DONE)
    requires Ascending(iters[0].items) ==> Ascending(Delivered(msgs))
    requires FailureOf(msgs) == DONE && Ascending(iters[0].items) ==>
               Elems(Delivered(msgs)) == Elems(iters[0].items) - Subtrahend(iters) - {EMPTY}
    requires NonDescending(Delivered(msgs))
    ensures Orderly(msgs, n, q)
  {
    if StrictNode(n, q) {
      assert CarriesEdge(iters[0], n.edges[0], q) && n.edges[0] in n.edges;
    }
    if ExactNode(n, q) {
      ExactIsClean(n, q, iters);
      ExcludeMeans(n, q, iters, Delivered(msgs));
    }
  }

  // ---------------------------------------------------------------- what each operation keeps of that

  lemma LeafIsFaithful(e: Edge, q: Query)
    requires e.kind == DirectEdge && Live(e, q)
    ensures EdgeFaithful(e.stored, e, q)
  {
    forall full | EdgeReadInFull(e, full, q)
      ensures EdgePromises(e.stored, e, full, q)
    {
      var items, all := e.stored.items, full.stored.items;
      forall x, v | x in items && v in all && v !in items
        ensures x <= v
      {
        assert forall k :: 0 <= k < |items| ==> all[k] == items[k] && all[k] in items;
        var i :| 0 <= i < |items| && items[i] == x;
        var j :| 0 <= j < |all| && all[j] == v;
        assert |items| <= j;
      }
      assert forall x :: x in items ==> x in all;
    }
  }

  lemma EdgeIsFaithful(e: Edge, q: Query, src: Source)
    requires e.kind != DirectEdge && Live(e, q) && Faithful(src, e.to, q)
    ensures EdgeFaithful(src, e, q)
  {
    forall full | EdgeReadInFull(e, full, q)
      ensures EdgePromises(src, e, full, q)
    {
      assert ReadInFull(e.to, full.to, q) && Promises(src, e.to, full.to, q);
    }
  }

  lemma DeadIntersectionIsFaithful(n: Node, q: Query)
    requires n.kind == IntersectionOperator && exists e :: e in n.edges && !Live(e, q)
    ensures Faithful(Source([], DONE), n, q)
  {
    forall full | ReadInFull(n, full, q)
      ensures NodeMeaning(full, q) == {}
    {
      var e :| e in n.edges && !Live(e, q);
      var i :| 0 <= i < |n.edges| && n.edges[i] == e;
      assert full.edges[i] == e && full.edges[i] in full.edges;
      DeadOperandEmptiesIntersection(full.edges, q);
    }
  }

  lemma EdgeOf(n: Node, full: Node, q: Query, i: nat)
    requires ReadInFull(n, full, q) && i < |n.edges| && Used(n, n.edges[i], q)
    ensures EdgeReadInFull(n.edges[i], full.edges[i], q)
  {
    SameUse(n, full, q, i);
    assert full.edges[i] in full.edges && (!UnionLike(full) ==> full.edges[i].weighted);
  }

  /** The end of the intersection: one of the streams has run out, and settles it. */
  ghost predicate EndsSettled(iters: seq<Source>, src: Source) {
    exists k :: 0 <= k < |iters| && iters[k].err == src.err && Settles(iters, k, src.items)
  }

  lemma IntersectIsFaithful(n: Node, q: Query, iters: seq<Source>, src: Source)
    requires TameNode(n, q) && n.kind == IntersectionOperator && (q.wild ==> forall e :: e in n.edges ==> e.wildcard)
    requires CarryEdges(iters, n.edges, q) && BeginsCommon(iters, src.items) && EndsSettled(iters, src)
    ensures Faithful(src, n, q)
  {
    IntersectOperands(n, q);
    CarriedIsSorted(iters, n.edges, q);
    forall full | ReadInFull(n, full, q)
      ensures Promises(src, n, full, q)
    {
      if SteadyNode(n, q) || HonestNode(n, q) {
        SteadyOperands(n, q);
        OperandsTell(n, full, q, iters);
        IntersectTells(full, q, iters, src);
      }
    }
  }

  lemma SteadyOperands(n: Node, q: Query)
    requires n.kind == IntersectionOperator && (SteadyNode(n, q) || HonestNode(n, q))
    requires forall e :: e in n.edges ==> Live(e, q)
    ensures forall e :: e in n.edges ==> SteadyEdge(e, q)
  {
    assert !UnionLike(n) && forall e :: e in n.edges ==> Used(n, e, q);
  }

  lemma OperandsTell(n: Node, full: Node, q: Query, iters: seq<Source>)
    requires ReadInFull(n, full, q) && CarryEdges(iters, n.edges, q) && !UnionLike(n)
    requires forall e :: e in n.edges ==> Live(e, q) && SteadyEdge(e, q)
    ensures AllTell(iters, full.edges, q)
  {
    forall i | 0 <= i < |n.edges|
      ensures Tells(iters[i], EdgeMeaning(full.edges[i], q))
    {
      assert n.edges[i] in n.edges;
      EdgeOf(n, full, q, i);
      assert CarriesEdge(iters[i], n.edges[i], q) && EdgePromises(iters[i], n.edges[i], full.edges[i], q);
    }
  }

  lemma IntersectTells(full: Node, q: Query, iters: seq<Source>, src: Source)
    requires full.kind == IntersectionOperator && AllTell(iters, full.edges, q)
    requires AllNonDescending(Items(iters)) && BeginsCommon(iters, src.items) && EndsSettled(iters, src)
    ensures Tells(src, NodeMeaning(full, q))
  {
    var more := Filled(iters, full.edges, q);
    CommonIsAllOf(Extended(Items(iters), more), full.edges, q);
    SettledTells(iters, more, src);
  }

  lemma SettledTells(iters: seq<Source>, more: seq<seq<Id>>, src: Source)
    requires Missed(iters, more) && BeginsCommon(iters, src.items) && EndsSettled(iters, src)
    ensures Tells(src, Common(Extended(Items(iters), more)) - {EMPTY})
  {
    var whole := Common(Extended(Items(iters), more)) - {EMPTY};
    assert Begins(src.items, whole);
    var k :| 0 <= k < |iters| && iters[k].err == src.err && Settles(iters, k, src.items);
    assert src.err == DONE ==> more[k] == [];
  }

  /** What the streams of the base and of the subtracted operand, if it is evaluated, have to carry. */
  ghost function Pair(n: Node): seq<Edge>
    requires |n.edges| == 2
  {
    if n.edges[1].weighted then n.edges else [n.edges[0]]
  }

  /** The base and the subtracted stream, both read in full. */
  lemma FillPair(n: Node, full: Node, q: Query, iters: seq<Source>) returns (b: seq<Id>, s: seq<Id>)
    requires !q.wild && n.kind == ExclusionOperator && |n.edges| == 2 && n.edges[0].weighted && ReadInFull(n, full, q)
    requires CarryEdges(iters, Pair(n), q) && AllTell(iters, Pair(full), q) && AllNonDescending(Items(iters))
    ensures NonDescending(iters[0].items + b) && Ascending(iters[0].items + b)
    ensures NonDescending(SubtrahendItems(iters) + s) && (|iters| == 1 ==> s == [])
    ensures (iters[0].err == DONE ==> b == []) && (|iters| == 2 && iters[1].err == DONE ==> s == [])
    ensures Elems(iters[0].items + b) - {EMPTY} == EdgeMeaning(full.edges[0], q)
    ensures Elems(SubtrahendItems(iters) + s) - {EMPTY} == EdgeMeaning(full.edges[1], q)
  {
    EdgeOf(n, full, q, 0);
    StrictBefore(n.edges[0], full.edges[0], q);
    assert CarriesEdge(iters[0], Pair(n)[0], q) && Tells(iters[0], EdgeMeaning(Pair(full)[0], q));
    NoEmptyMeantEdge(full.edges[0], q);
    b := FillUp(iters[0], EdgeMeaning(full.edges[0], q));
    s := [];
    if |iters| == 2 {
      NoEmptyMeantEdge(full.edges[1], q);
      assert Tells(iters[1], EdgeMeaning(Pair(full)[1], q)) && NonDescending(Items(iters)[1]);
      s := FillUp(iters[1], EdgeMeaning(full.edges[1], q));
    }
  }

  lemma ExcludeTells(n: Node, full: Node, q: Query, iters: seq<Source>, src: Source)
    requires !q.wild && n.kind == ExclusionOperator && |n.edges| == 2 && n.edges[0].weighted && ReadInFull(n, full, q)
    requires CarryEdges(iters, Pair(n), q) && AllTell(iters, Pair(full), q) && AllNonDescending(Items(iters))
    requires DifferenceTold(iters, src)
    ensures Tells(src, NodeMeaning(full, q))
  {
    var b, s := FillPair(n, full, q, iters);
    PairTold(iters, src, b, s);
    var fullBase, fullSub := iters[0].items + b, SubtrahendItems(iters) + s;
    PairMeans(full, q, fullBase, fullSub);
  }

  lemma PairMeans(full: Node, q: Query, base: seq<Id>, sub: seq<Id>)
    requires full.kind == ExclusionOperator && |full.edges| == 2
    requires Elems(base) - {EMPTY} == EdgeMeaning(full.edges[0], q)
    requires Elems(sub) - {EMPTY} == EdgeMeaning(full.edges[1], q)
    ensures Elems(base) - Elems(sub) - {EMPTY} == NodeMeaning(full, q)
  {
  }

  lemma PairTold(iters: seq<Source>, src: Source, b: seq<Id>, s: seq<Id>)
    requires 1 <= |iters| <= 2 && DifferenceTold(iters, src) && Ascending(iters[0].items + b)
    requires NonDescending(SubtrahendItems(iters) + s) && (|iters| == 1 ==> s == [])
    requires (iters[0].err == DONE ==> b == []) && (|iters| == 2 && iters[1].err == DONE ==> s == [])
    ensures Tells(src, Elems(iters[0].items + b) - Elems(SubtrahendItems(iters) + s) - {EMPTY})
  {
    var more := if |iters| == 2 then [b, s] else [b];
    MissedPair(iters, more);
    ToldOf(iters, src, more, iters[0].items + b, SubtrahendItems(iters) + s);
    DifferenceTells(iters[0].items + b, SubtrahendItems(iters) + s, src);
  }

  /** What the difference puts out is right whatever was missed. */
  ghost predicate DifferenceTold(iters: seq<Source>, src: Source)
    requires 1 <= |iters|
  {
    && (forall more :: Missed(iters, more) ==> BeginsBag(src.items, FullDifference(iters, more)))
    && (src.err == DONE ==> forall more :: Missed(iters, more) ==>
                              multiset(src.items) == FullDifference(iters, more)[EMPTY := 0])
  }

  lemma ToldOf(iters: seq<Source>, src: Source, more: seq<seq<Id>>, base: seq<Id>, sub: seq<Id>)
    requires 1 <= |iters| <= 2 && Missed(iters, more) && DifferenceTold(iters, src)
    requires base == iters[0].items + more[0]
    requires sub == SubtrahendItems(iters) + if |more| == 2 then more[1] else []
    ensures BeginsBag(src.items, Remainder(base, sub))
    ensures src.err == DONE ==> multiset(src.items) == Remainder(base, sub)[EMPTY := 0]
  {
    assert FullDifference(iters, more) == Remainder(base, sub);
  }

  lemma DifferenceTells(base: seq<Id>, sub: seq<Id>, src: Source)
    requires Ascending(base) && BeginsBag(src.items, Remainder(base, sub))
    requires src.err == DONE ==> multiset(src.items) == Remainder(base, sub)[EMPTY := 0]
    ensures Tells(src, Elems(base) - Elems(sub) - {EMPTY})
  {
    BagTells(base, sub, src.items);
    if src.err == DONE {
      DifferenceExactIff(base, sub, src.items);
      AscendingCancels(base, sub);
    }
  }

  lemma MissedPair(iters: seq<Source>, more: seq<seq<Id>>)
    requires 1 <= |iters| <= 2 && |more| == |iters| && NonDescending(iters[0].items + more[0])
    requires |iters| == 2 ==> NonDescending(iters[1].items + more[1])
    requires forall i :: 0 <= i < |iters| && iters[i].err == DONE ==> more[i] == []
    ensures Missed(iters, more)
  {
  }

  lemma BagTells(base: seq<Id>, sub: seq<Id>, out: seq<Id>)
    requires Ascending(base) && BeginsBag(out, Remainder(base, sub))
    ensures Elems(out) <= Elems(base) - Elems(sub) - {EMPTY}
    ensures forall x, v :: x in out && v in Elems(base) - Elems(sub) - {EMPTY} && v !in out ==> x <= v
  {
    forall v
      ensures Remainder(base, sub)[v] > 0 <==> v in base && v !in sub
    {
      AscendingCounts(base, v);
      assert v in sub <==> multiset(sub)[v] > 0;
    }
    forall x | x in out
      ensures x in base && x !in sub
    {
      assert x in multiset(out) && Remainder(base, sub)[x] > 0;
    }
    forall x, v | x in out && v in Elems(base) - Elems(sub) - {EMPTY} && v !in out
      ensures x <= v
    {
      assert v !in multiset(out) && multiset(out)[v] < Remainder(base, sub)[v];
    }
  }

  lemma PairTells(n: Node, full: Node, q: Query, iters: seq<Source>, i: nat)
    requires !q.wild && n.kind == ExclusionOperator && |n.edges| == 2 && n.edges[0].weighted && ReadInFull(n, full, q)
    requires CarryEdges(iters, Pair(n), q) && i < |iters|
    ensures SteadyEdge(n.edges[i], q) ==> Tells(iters[i], EdgeMeaning(full.edges[i], q))
    ensures HonestEdge(n.edges[i], q) && iters[i].err == DONE ==> Tells(iters[i], EdgeMeaning(full.edges[i], q))
  {
    EdgeOf(n, full, q, i);
    assert CarriesEdge(iters[i], Pair(n)[i], q) && Pair(n)[i] == n.edges[i];
    assert EdgePromises(iters[i], n.edges[i], full.edges[i], q);
  }

  lemma SamePair(n: Node, full: Node, q: Query)
    requires !q.wild && n.kind == ExclusionOperator && |n.edges| == 2 && n.edges[0].weighted
    requires CompletesNode(n, full, q)
    ensures |full.edges| == 2 && |Pair(full)| == |Pair(n)|
    ensures Pair(full)[0] == full.edges[0] && (|Pair(full)| == 2 ==> Pair(full)[1] == full.edges[1])
  {
    assert Used(n, n.edges[1], q) ==> CompletesEdge(n.edges[1], full.edges[1], q);
    assert !Used(n, n.edges[1], q) ==> full.edges[1] == n.edges[1];
  }

  lemma ExcludePromises(n: Node, full: Node, q: Query, iters: seq<Source>, src: Source)
    requires !q.wild && n.kind == ExclusionOperator && |n.edges| == 2 && n.edges[0].weighted && ReadInFull(n, full, q)
    requires CarryEdges(iters, Pair(n), q) && AllNonDescending(Items(iters)) && DifferenceTold(iters, src)
    requires src.err == DONE ==> iters[0].err == DONE
    ensures Promises(src, n, full, q)
  {
    SamePair(n, full, q);
    PairTells(n, full, q, iters, 0);
    if |iters| == 2 {
      PairTells(n, full, q, iters, 1);
    }
    assert n.edges[0] in n.edges && n.edges[1] in n.edges;
    if SteadyNode(n, q) || (HonestNode(n, q) && src.err == DONE) {
      assert AllTell(iters, Pair(full), q);
      ExcludeTells(n, full, q, iters, src);
    }
  }

  lemma ExcludeIsFaithful(n: Node, q: Query, iters: seq<Source>, src: Source)
    requires !q.wild && n.kind == ExclusionOperator && |n.edges| == 2 && n.edges[0].weighted
    requires CarryEdges(iters, Pair(n), q) && AllNonDescending(Items(iters)) && DifferenceTold(iters, src)
    requires src.err == if SubtrahendFails(iters) then iters[1].err else iters[0].err
    ensures Faithful(src, n, q)
  {
    forall full | ReadInFull(n, full, q)
      ensures Promises(src, n, full, q)
    {
      ExcludePromises(n, full, q, iters, src);
    }
  }

  lemma UniteIsFaithful(n: Node, q: Query, iters: seq<Source>, msgs: seq<Msg>)
    requires TameNode(n, q) && UnionLike(n) && CarryEdges(iters, Flattened(n, q), q)
    requires Elems(Delivered(msgs)) == Members(Items(iters)) - {EMPTY}
    requires FailureOf(msgs) == DONE <==> forall it :: it in iters ==> it.err == DONE
    requires Orderly(msgs, n, q)
    ensures Faithful(Source(Delivered(msgs), FailureOf(msgs)), n, q)
  {
    var src := Source(Delivered(msgs), FailureOf(msgs));
    forall full | ReadInFull(n, full, q)
      ensures Promises(src, n, full, q)
    {
      if HonestNode(n, q) && FailureOf(msgs) == DONE {
        UniteHonestly(n, full, q, iters);
      }
      if SteadyNode(n, q) {
        SteadyUnion(n, q);
        if QuietNode(n, q) {
          QuietIsComplete(n, full, q);
        } else {
          UniteTells(n, full, q, iters, src);
        }
      }
    }
  }

  lemma FlattenedInFull(n: Node, full: Node, q: Query, i: nat)
    requires TameNode(n, q) && UnionLike(n) && ReadInFull(n, full, q) && i < |Flattened(n, q)|
    ensures |Flattened(full, q)| == |Flattened(n, q)|
    ensures EdgeReadInFull(Flattened(n, q)[i], Flattened(full, q)[i], q) && !Dropped(Flattened(full, q)[i], q)
    ensures HonestNode(n, q) ==> HonestEdge(Flattened(n, q)[i], q)
  {
    FlattenInStep(n, full, q);
    FlattenedIsTame(full, q, Flattened(full, q)[i]);
    FlattenedIsTame(n, q, Flattened(n, q)[i]);
  }

  lemma UnionInFull(full: Node, q: Query, ss: seq<seq<Id>>)
    requires TameNode(full, q) && UnionLike(full) && Mean(ss, Flattened(full, q), q)
    ensures Members(ss) - {EMPTY} == NodeMeaning(full, q)
  {
    forall e | e in Flattened(full, q)
      ensures !Dropped(e, q)
    {
      FlattenedIsTame(full, q, e);
    }
    MembersAreAnyOf(ss, Flattened(full, q), q);
    TameIsWellShaped(full, q);
    FlatteningKeepsMeaning(full, q);
  }

  lemma UniteHonestly(n: Node, full: Node, q: Query, iters: seq<Source>)
    requires TameNode(n, q) && UnionLike(n) && HonestNode(n, q) && ReadInFull(n, full, q)
    requires CarryEdges(iters, Flattened(n, q), q) && forall it :: it in iters ==> it.err == DONE
    ensures Members(Items(iters)) - {EMPTY} == NodeMeaning(full, q)
  {
    var es, fs := Flattened(n, q), Flattened(full, q);
    FlattenInStep(n, full, q);
    forall i | 0 <= i < |es|
      ensures Elems(Items(iters)[i]) - {EMPTY} == EdgeMeaning(fs[i], q)
    {
      FlattenedInFull(n, full, q, i);
      assert CarriesEdge(iters[i], es[i], q) && iters[i] in iters && EdgePromises(iters[i], es[i], fs[i], q);
    }
    UnionInFull(full, q, Items(iters));
  }

  lemma SameTells(src: Source, one: Source, whole: set<Id>)
    requires Tells(one, whole) && EMPTY !in whole && Elems(src.items) == Elems(one.items) - {EMPTY}
    requires src.err == DONE ==> one.err == DONE
    ensures Tells(src, whole)
  {
    forall x, v | x in src.items && v in whole && v !in src.items
      ensures x <= v
    {
      assert x in Elems(src.items) && v !in Elems(src.items);
    }
  }

  /** A union of one stream is that stream. */
  lemma UniteTells(n: Node, full: Node, q: Query, iters: seq<Source>, src: Source)
    requires TameNode(n, q) && UnionLike(n) && ReadInFull(n, full, q) && CarryEdges(iters, Flattened(n, q), q)
    requires |Flattened(n, q)| <= 1 && forall e :: e in Flattened(n, q) ==> SteadyEdge(e, q)
    requires Elems(src.items) == Members(Items(iters)) - {EMPTY}
    requires src.err == DONE <==> forall it :: it in iters ==> it.err == DONE
    ensures Tells(src, NodeMeaning(full, q))
  {
    var es, fs := Flattened(n, q), Flattened(full, q);
    FlattenInStep(n, full, q);
    TameIsWellShaped(full, q);
    FlatteningKeepsMeaning(full, q);
    if es != [] {
      FlattenedInFull(n, full, q, 0);
      assert CarriesEdge(iters[0], es[0], q) && EdgePromises(iters[0], es[0], fs[0], q) && es[0] in es;
      NoEmptyMeantEdge(fs[0], q);
      assert AnyOf(fs, q) == EdgeMeaning(fs[0], q) + AnyOf(fs[1..], q);
      assert iters[0] in iters;
      OneMember(Items(iters));
      SameTells(src, iters[0], EdgeMeaning(fs[0], q));
    }
  }

  lemma OneMember(ss: seq<seq<Id>>)
    requires |ss| == 1
    ensures Members(ss) == Elems(ss[0])
  {
  }
}
