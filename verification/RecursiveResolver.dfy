/**
 The v2 recursive resolver from end to end. The user's side is what the bottom-up evaluation of the relation's
 own node yields on the recursive path: the objects on which the user holds the relation by a tuple of their
 own. Matched with the object's side by the worker search, it decides the relation.
 */
module RecursiveResolver {
  import opened Ids
  import opened Rules
  import opened RecursiveMeaning
  import C = Channels
  import G = GraphEvaluation
  import S = GraphStreams
  import M = ModelGraph
  import R = Reachability
  import WorkSharing
  import WorkSharingExact
  import W = WorkSharingResolver

  const RECURSIVE := M.Query(false, true)

  /** Ids are numbered by the places of the objects, from 1 on; 0 is the empty id. */
  function Place(x: Id): nat {
    if x == EMPTY then 0 else x - 1
  }

  /** An ordinary user, whose type leads to the relation. */
  predicate Ordinary(w: World, a: Ask) {
    a.user.relation == "" && a.user.obj.typ != a.typ && w.pathExists(a.user, a.relation, a.typ)
  }

  /** An operand of the relation's node that does not lead back to the relation. */
  ghost predicate Leaf(n: M.Node, e: M.Edge) {
    M.Reached(n, e, RECURSIVE) && !e.recursive
  }

  ghost predicate ReadSomewhere(n: M.Node, x: Id) {
    exists e :: Leaf(n, e) && x in e.stored.items
  }

  /** The leaves are direct edges and read the objects on which the user or the user's wildcard is assigned. */
  ghost predicate ReadsTuples(w: World, a: Ask, n: M.Node) {
    && (forall e :: Leaf(n, e) ==> e.kind == M.DirectEdge)
    && (forall x: Id :: ReadSomewhere(n, x) ==> x <= |a.objs|)
    && (forall i: nat :: i < |a.objs| ==>
                           (ReadSomewhere(n, i + 1) <==> DirectTuple(w, KeyAt(a, i)) || PublicTuple(w, KeyAt(a, i))))
  }

  // ---------------------------------------------------------------- the user's side

  lemma {:induction false} ReachedIsLive(n: M.Node, e: M.Edge)
    requires M.Reached(n, e, RECURSIVE)
    ensures e.weighted
    decreases n
  {
    var d :| d in n.edges && d.weighted && if M.Operand(d) then d == e else M.Reached(d.to, e, RECURSIVE);
    if !M.Operand(d) {
      ReachedIsLive(d.to, e);
    }
  }

  lemma NodeReads(n: M.Node, x: Id)
    requires S.TameNode(n, RECURSIVE) && M.UnionLike(n)
    requires forall e :: Leaf(n, e) ==> e.kind == M.DirectEdge
    ensures x in M.NodeMeaning(n, RECURSIVE) <==> x != EMPTY && ReadSomewhere(n, x)
  {
    S.TameIsWellShaped(n, RECURSIVE);
    M.UnionMeans(n, RECURSIVE, x);
    forall e | Leaf(n, e)
      ensures x in M.EdgeMeaning(e, RECURSIVE) <==> x != EMPTY && x in e.stored.items
    {
      ReachedIsLive(n, e);
    }
  }

  /** For an ordinary user nothing but tuples makes the relation hold directly. */
  lemma OrdinaryHolds(w: World, a: Ask, i: nat)
    requires SelfRecursive(w, a) && Ordinary(w, a) && i < |a.objs|
    ensures HoldsDirectly(w, KeyAt(a, i)) <==> DirectTuple(w, KeyAt(a, i)) || PublicTuple(w, KeyAt(a, i))
  {
    var k := KeyAt(a, i);
    assert a.objs[i] in a.objs;
    assert !SomeWildcard(w, k) by {
      assert forall t :: UsersetTuple(w, k, t) ==> t.user.obj.typ == a.typ;
    }
  }

  lemma BaseIsRead(w: World, a: Ask, n: M.Node, i: nat)
    requires SelfRecursive(w, a) && Ordinary(w, a) && ReadsTuples(w, a, n) && i < |a.objs|
    ensures i in Base(w, a) <==> ReadSomewhere(n, i + 1)
  {
    OrdinaryHolds(w, a, i);
    assert ReadSomewhere(n, i + 1) <==> DirectTuple(w, KeyAt(a, i)) || PublicTuple(w, KeyAt(a, i));
  }

  lemma MeaningIsBase(w: World, a: Ask, n: M.Node, x: Id)
    requires SelfRecursive(w, a) && Ordinary(w, a) && ReadsTuples(w, a, n)
    requires S.TameNode(n, RECURSIVE) && M.UnionLike(n)
    ensures x in M.NodeMeaning(n, RECURSIVE) <==> x != EMPTY && Place(x) in Base(w, a)
  {
    NodeReads(n, x);
    if x != EMPTY && Place(x) < |a.objs| {
      BaseIsRead(w, a, n, Place(x));
      assert Place(x) + 1 == x;
    }
  }

  lemma UserSideIsBase(w: World, a: Ask, n: M.Node)
    requires SelfRecursive(w, a) && Ordinary(w, a) && ReadsTuples(w, a, n)
    requires S.TameNode(n, RECURSIVE) && M.UnionLike(n)
    ensures (set x | x in M.NodeMeaning(n, RECURSIVE) :: Place(x)) == Base(w, a)
  {
    forall x
      ensures x in M.NodeMeaning(n, RECURSIVE) <==> x != EMPTY && Place(x) in Base(w, a)
    {
      MeaningIsBase(w, a, n, x);
    }
    forall i | i in Base(w, a)
      ensures i + 1 in M.NodeMeaning(n, RECURSIVE) && Place(i + 1) == i
    {
    }
  }

  // ---------------------------------------------------------------- its messages

  function Places(items: seq<Id>): (r: seq<nat>)
    ensures |r| == |items| && forall i :: 0 <= i < |items| ==> r[i] == Place(items[i])
  {
    seq(|items|, i requires 0 <= i < |items| => Place(items[i]))
  }

  function Left(msgs: seq<C.Msg>): seq<W.LeftMsg> {
    if msgs == [] then []
    else [if msgs[0].Chunk? then W.Chunk(Places(msgs[0].items), false) else W.Broken] + Left(msgs[1..])
  }

  lemma {:induction false} LeftCarries(msgs: seq<C.Msg>)
    requires C.FailureOf(msgs) == C.DONE
    ensures W.LeftItems(Left(msgs)) == set x | x in C.Delivered(msgs) :: Place(x)
    ensures forall m :: m in Left(msgs) ==> W.Sane(m)
  {
    if msgs != [] {
      LeftCarries(msgs[1..]);
      W.TakeLeft(Left(msgs));
      PlacesCarry(msgs[0].items);
      assert C.Delivered(msgs) == msgs[0].items + C.Delivered(msgs[1..]);
    }
  }

  lemma PlacesCarry(items: seq<Id>)
    ensures forall y :: y in Places(items) <==> exists x :: x in items && y == Place(x)
  {
    forall x | x in items
      ensures Place(x) in Places(items)
    {
      var i :| 0 <= i < |items| && items[i] == x;
      assert Places(items)[i] == Place(x);
    }
  }

  lemma SidesMatch(w: World, a: Ask, n: M.Node, msgs: seq<C.Msg>)
    requires SelfRecursive(w, a) && Ordinary(w, a) && ReadsTuples(w, a, n)
    requires S.TameNode(n, RECURSIVE) && M.UnionLike(n) && S.ExactNode(n, RECURSIVE) && S.Carries(msgs, n, RECURSIVE)
    ensures W.LeftItems(Left(msgs)) == Base(w, a)
  {
    UserSideIsBase(w, a, n);
    LeftCarries(msgs);
    assert forall x :: x in C.Delivered(msgs) <==> x in M.NodeMeaning(n, RECURSIVE);
  }

  // ---------------------------------------------------------------- the resolver

  /** The whole resolver: a yes is granted, and on a safe store a no leaves only what the object holds directly. */
  method CheckRecursive(w: World, a: Ask, i: nat, n: M.Node, tuples: map<R.Node, set<WorkSharing.Edge>>,
                        right: seq<R.Msg>, reliable: bool, limit: nat)
    returns (r: R.Outcome)
    requires SelfRecursive(w, a) && Positive(w) && Ordinary(w, a) && i < |a.objs|
    requires S.TameNode(n, RECURSIVE) && M.UnionLike(n) && S.ResolvableNode(n, RECURSIVE) && ReadsTuples(w, a, n)
    requires R.Items(right) == R.Succ(GraphOf(w, a), i)
    requires WorkSharing.Accepted(WorkSharing.Data(tuples, R.Items(right))) == GraphOf(w, a)
    ensures S.ExactNode(n, RECURSIVE) && r == R.Answer(true) ==> KeyAt(a, i) in Granted(w)
    ensures S.ExactNode(n, RECURSIVE) && r == R.Answer(false) &&
            WorkSharingExact.Safe(WorkSharing.Data(tuples, R.Items(right))) ==>
              (KeyAt(a, i) in Granted(w) <==> HoldsDirectly(w, KeyAt(a, i)))
  {
    var producer := G.ResolveRewrite(n, RECURSIVE);
    if S.ExactNode(n, RECURSIVE) {
      SidesMatch(w, a, n, producer.msgs);
      GrantedIffReaches(w, a, i);
    }
    r := W.Execute(tuples, Left(producer.msgs), right, reliable, limit);
  }
}
