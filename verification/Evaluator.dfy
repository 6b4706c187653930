/**
 The v1 check evaluator, with and without the subproblem cache in its dispatch chain.

 Every path of the evaluation carries its own set of visited keys; meeting one of them again
 answers "no, in a cycle". Handlers run concurrently, so their outcomes reach a reducer in any
 order, and other requests may fill or evict the shared cache between any two lookups.
 */
module Evaluator {
  import opened Reducers
  import opened Rules

  const DEPTH_EXCEEDED := 1
  const RELATION_UNDEFINED := 2
  const READ_FAILED := 3

  // ---------------------------------------------------------------- what makes an answer right

  /**
   The keys visited on the way to `k`: none in the zone before the zone is entered, and from then on with
   ever lower ranks.
   */
  ghost predicate OnTheWay(z: Zone, cut: set<Key>, k: Key) {
    forall v :: v in cut && v in z.keys ==> k in z.keys && z.rank(k) < z.rank(v)
  }

  /** Whatever the rewrite looks up may be asked for with `cut` visited. */
  ghost predicate Ready(w: World, z: Zone, k: Key, rw: Rewrite, cut: set<Key>) {
    forall j :: LooksUp(w, k, rw, j) ==> OnTheWay(z, cut, j)
  }

  ghost predicate Inside(w: World, z: Zone, k: Key, rw: Rewrite) {
    forall j :: LooksUp(w, k, rw, j) ==> j in z.keys
  }

  /**
   An answer for `k` obtained while `cut` was visited. With or without exclusion, an answer that is not
   marked as cyclic is what every fixpoint of the rules says; a yes is never marked. In a zone no answer is
   marked, and in a world that the zone settles a "no" is not derivable around the visited keys.
   */
  ghost predicate KeyRight(w: World, z: Zone, k: Key, cut: set<Key>, r: Outcome) {
    && Coherent(r)
    && (r.Resp? && !r.cycle ==> forall S :: Fixpoint(w, S) ==> (r.allowed <==> k in S))
    && (r.Resp? && Falling(w, z) && OnTheWay(z, cut, k) && k in z.keys ==> !r.cycle)
    && (r.Resp? && Settled(w, z) && OnTheWay(z, cut, k) && !r.allowed ==> k !in Derivable(w, z, cut))
  }

  ghost predicate RewriteRight(w: World, z: Zone, k: Key, rw: Rewrite, cut: set<Key>, r: Outcome) {
    && Coherent(r)
    && (r.Resp? && !r.cycle ==> forall S :: Fixpoint(w, S) ==> (r.allowed <==> RewriteHolds(w, k, rw, S)))
    && (r.Resp? && Falling(w, z) && Ready(w, z, k, rw, cut) && Inside(w, z, k, rw) ==> !r.cycle)
    && (r.Resp? && Settled(w, z) && Ready(w, z, k, rw, cut) && Fits(w, z, k, rw) && !r.allowed ==>
          !RewriteHolds(w, k, rw, Mix(z, Derivable(w, z, cut))))
  }

  ghost predicate UsersetsRight(w: World, z: Zone, k: Key, cut: set<Key>, r: Outcome) {
    && Coherent(r)
    && (r.Resp? && !r.cycle ==> forall S :: Fixpoint(w, S) ==> (r.allowed <==> UsersetHolds(w, k, S)))
    && (r.Resp? && Falling(w, z) && Ready(w, z, k, This, cut) && Inside(w, z, k, This) ==> !r.cycle)
    && (r.Resp? && Settled(w, z) && Ready(w, z, k, This, cut) && !r.allowed ==>
          !UsersetHolds(w, k, Mix(z, Derivable(w, z, cut))))
  }

  /** An answer that reads a tuple and dispatches nothing. */
  predicate Reads(r: Outcome, found: bool) {
    r.Resp? ==> r == Resp(found, false)
  }

  /** What `Union` promises about the outcomes it was given, in whatever order. */
  ghost predicate UnionOf(outs: seq<Outcome>, r: Outcome) {
    && Class(r) == UnionClass(outs)
    && (Class(r) == Yes ==> r in outs)
    && (Class(r) == No ==> (r.cycle <==> exists o :: o in outs && Cyclic(o)))
    && ((forall o :: o in outs ==> Coherent(o)) ==> Coherent(r))
  }

  // ---------------------------------------------------------------- when an answer is certain to come

  predicate Closed(w: World, typ: string, rw: Rewrite) {
    match rw
    case This => true
    case Computed(r) => Defined(w, typ, r)
    case TupleToUserset(ts, _) =>
      forall t :: t in w.tuples && t.obj.typ == typ && t.relation == ts ==> t.user.obj.typ in w.types
    case Union(cs) => forall c :: c in cs ==> Closed(w, typ, c)
    case Intersection(cs) => 2 <= |cs| && forall c :: c in cs ==> Closed(w, typ, c)
    case Difference(b, s) => Closed(w, typ, b) && Closed(w, typ, s)
  }

  /** Reads succeed, and following the model and the tuples never leaves the defined relations. */
  predicate Sturdy(w: World) {
    && w.reliable
    && (forall tr :: tr in w.rewrites ==> Closed(w, tr.0, w.rewrites[tr]))
    && (forall t :: t in w.tuples && t.user.relation != "" ==> Defined(w, t.user.obj.typ, t.user.relation))
  }

  /** Keys that the path can still add to its visited set. */
  ghost function Unvisited(w: World, root: Object, u: User, visited: set<Key>): nat {
    |Universe(w, root, u) - visited|
  }

  lemma VisitingDecreases(w: World, root: Object, k: Key, visited: set<Key>)
    requires k.obj in Objects(w, root) && Defined(w, k.obj.typ, k.relation) && k !in visited
    ensures Unvisited(w, root, k.user, visited + {k}) == Unvisited(w, root, k.user, visited) - 1
  {
    var U := Universe(w, root, k.user);
    assert (k.obj.typ, k.relation) in w.rewrites.Keys;
    assert k in U;
    assert U - (visited + {k}) == (U - visited) - {k};
  }

  // ---------------------------------------------------------------- how deep the lookups go

  ghost predicate Mentions(rw: Rewrite, part: Rewrite) {
    || rw == part
    || match rw
       case Union(cs) => exists i :: 0 <= i < |cs| && Mentions(cs[i], part)
       case Intersection(cs) => exists i :: 0 <= i < |cs| && Mentions(cs[i], part)
       case Difference(b, s) => Mentions(b, part) || Mentions(s, part)
       case _ => false
  }

  /** The rewrite asks for another relation of the same object. */
  ghost predicate Renames(k: Key, rw: Rewrite, j: Key) {
    Mentions(rw, Computed(j.relation)) && j == Key(k.obj, j.relation, k.user)
  }

  /** The rewrite asks for a relation of another object: that of an assigned userset, or one of a parent. */
  ghost predicate Descends(w: World, k: Key, rw: Rewrite, j: Key) {
    && j.user == k.user
    && (|| (Mentions(rw, This) && Tuple(k.obj, k.relation, User(j.obj, j.relation)) in w.tuples)
        || (exists t :: && t in w.tuples && t.obj == k.obj && t.user.obj == j.obj
                        && Mentions(rw, TupleToUserset(t.relation, j.relation))))
  }

  /** A way down the lookups. Only a descent takes one off the depth that is left. */
  datatype Chain = Stop | Rename(to: Key, rest: Chain) | Descend(to: Key, rest: Chain)

  /** The chain starts at `k` and leaves no key twice, nor one of `seen`. */
  ghost predicate Walks(w: World, seen: set<Key>, k: Key, c: Chain)
    decreases c
  {
    c.Stop? ||
    (&& k !in seen && Defined(w, k.obj.typ, k.relation) && Walks(w, seen + {k}, c.to, c.rest)
     && var rw := w.rewrites[(k.obj.typ, k.relation)];
        if c.Rename? then Renames(k, rw, c.to) else Descends(w, k, rw, c.to))
  }

  function Descents(c: Chain): nat {
    match c
    case Stop => 0
    case Rename(_, rest) => Descents(rest)
    case Descend(_, rest) => 1 + Descents(rest)
  }

  /** Some chain from `k` goes down `n` times. */
  ghost predicate Deep(w: World, seen: set<Key>, k: Key, n: int) {
    exists c :: Walks(w, seen, k, c) && Descents(c) == n
  }

  /** The same, where the first step is one of the rewrite's, to `j`. */
  ghost predicate DeepVia(w: World, seen: set<Key>, k: Key, rw: Rewrite, j: Key, n: int) {
    (Renames(k, rw, j) && Deep(w, seen, j, n)) || (Descends(w, k, rw, j) && Deep(w, seen, j, n - 1))
  }

  ghost predicate DeepIn(w: World, seen: set<Key>, k: Key, rw: Rewrite, n: int) {
    exists j :: DeepVia(w, seen, k, rw, j, n)
  }

  /** The depth error comes only where the lookups are that deep, and in a sturdy world there is no other. */
  ghost predicate FailureRight(w: World, seen: set<Key>, k: Key, depth: nat, r: Outcome) {
    && (r == Err(DEPTH_EXCEEDED) ==> Deep(w, seen, k, w.maxDepth - depth))
    && (r.Err? && Sturdy(w) && Defined(w, k.obj.typ, k.relation) ==> r == Err(DEPTH_EXCEEDED))
  }

  ghost predicate FailureRightIn(w: World, seen: set<Key>, k: Key, rw: Rewrite, depth: nat, r: Outcome) {
    && (r == Err(DEPTH_EXCEEDED) ==> DeepIn(w, seen, k, rw, w.maxDepth - depth))
    && (r.Err? && Sturdy(w) && Closed(w, k.obj.typ, rw) ==> r == Err(DEPTH_EXCEEDED))
  }

  lemma DeepRenamed(w: World, seen: set<Key>, k: Key, j: Key, n: int)
    requires k !in seen && Defined(w, k.obj.typ, k.relation) && Deep(w, seen + {k}, j, n)
    requires Renames(k, w.rewrites[(k.obj.typ, k.relation)], j)
    ensures Deep(w, seen, k, n)
  {
    var c :| Walks(w, seen + {k}, j, c) && Descents(c) == n;
    assert Walks(w, seen, k, Rename(j, c)) && Descents(Rename(j, c)) == n;
  }

  lemma DeepDescended(w: World, seen: set<Key>, k: Key, j: Key, n: int)
    requires k !in seen && Defined(w, k.obj.typ, k.relation) && Deep(w, seen + {k}, j, n - 1)
    requires Descends(w, k, w.rewrites[(k.obj.typ, k.relation)], j)
    ensures Deep(w, seen, k, n)
  {
    var c :| Walks(w, seen + {k}, j, c) && Descents(c) == n - 1;
    assert Walks(w, seen, k, Descend(j, c)) && Descents(Descend(j, c)) == n;
  }

  lemma KeyFails(w: World, seen: set<Key>, k: Key, depth: nat, r: Outcome)
    requires k !in seen && Defined(w, k.obj.typ, k.relation)
    requires FailureRightIn(w, seen + {k}, k, w.rewrites[(k.obj.typ, k.relation)], depth, r)
    ensures FailureRight(w, seen, k, depth, r)
  {
    if r == Err(DEPTH_EXCEEDED) {
      var rw, n := w.rewrites[(k.obj.typ, k.relation)], w.maxDepth - depth;
      var j :| DeepVia(w, seen + {k}, k, rw, j, n);
      if Renames(k, rw, j) && Deep(w, seen + {k}, j, n) {
        DeepRenamed(w, seen, k, j, n);
      } else {
        DeepDescended(w, seen, k, j, n);
      }
    }
  }

  lemma TooDeep(w: World, seen: set<Key>, k: Key)
    ensures FailureRight(w, seen, k, w.maxDepth, Err(DEPTH_EXCEEDED))
  {
    assert Walks(w, seen, k, Stop) && Descents(Stop) == 0;
  }

  lemma RenameFails(w: World, seen: set<Key>, k: Key, relation: string, depth: nat, r: Outcome)
    requires FailureRight(w, seen, Key(k.obj, relation, k.user), depth, r)
    ensures FailureRightIn(w, seen, k, Computed(relation), depth, r)
  {
    assert r == Err(DEPTH_EXCEEDED) ==>
        DeepVia(w, seen, k, Computed(relation), Key(k.obj, relation, k.user), w.maxDepth - depth);
  }

  lemma UsersetFails(w: World, seen: set<Key>, k: Key, t: Tuple, depth: nat, r: Outcome)
    requires UsersetTuple(w, k, t) && FailureRight(w, seen, UsersetKey(k, t), depth + 1, r)
    ensures FailureRightIn(w, seen, k, This, depth, r)
  {
    assert t == Tuple(k.obj, k.relation, User(t.user.obj, t.user.relation));
    assert Descends(w, k, This, UsersetKey(k, t));
    assert r == Err(DEPTH_EXCEEDED) ==> DeepVia(w, seen, k, This, UsersetKey(k, t), w.maxDepth - depth);
  }

  lemma ParentFails(w: World, seen: set<Key>, k: Key, ts: string, cr: string, t: Tuple, depth: nat, r: Outcome)
    requires ParentTuple(w, k, ts, cr, t) && FailureRight(w, seen, ParentKey(k, cr, t), depth + 1, r)
    ensures FailureRightIn(w, seen, k, TupleToUserset(ts, cr), depth, r)
  {
    assert Mentions(TupleToUserset(ts, cr), TupleToUserset(t.relation, cr));
    assert Descends(w, k, TupleToUserset(ts, cr), ParentKey(k, cr, t));
    assert r == Err(DEPTH_EXCEEDED) ==>
        DeepVia(w, seen, k, TupleToUserset(ts, cr), ParentKey(k, cr, t), w.maxDepth - depth);
  }

  lemma StepOfPart(w: World, k: Key, part: Rewrite, rw: Rewrite, j: Key)
    requires forall x :: Mentions(part, x) ==> Mentions(rw, x)
    ensures Renames(k, part, j) ==> Renames(k, rw, j)
    ensures Descends(w, k, part, j) ==> Descends(w, k, rw, j)
  {
  }

  /** A failure of an operand is a failure of the whole. */
  lemma PartFails(w: World, seen: set<Key>, k: Key, part: Rewrite, rw: Rewrite, depth: nat, r: Outcome)
    requires FailureRightIn(w, seen, k, part, depth, r) && (Closed(w, k.obj.typ, rw) ==> Closed(w, k.obj.typ, part))
    requires forall x :: Mentions(part, x) ==> Mentions(rw, x)
    ensures FailureRightIn(w, seen, k, rw, depth, r)
  {
    if r == Err(DEPTH_EXCEEDED) {
      var j :| DeepVia(w, seen, k, part, j, w.maxDepth - depth);
      StepOfPart(w, k, part, rw, j);
      assert DeepVia(w, seen, k, rw, j, w.maxDepth - depth);
    }
  }

  lemma OperandFails(w: World, seen: set<Key>, k: Key, cs: seq<Rewrite>, rw: Rewrite, outs: seq<Outcome>, depth: nat,
                     r: Outcome)
    requires rw == Rewrite.Union(cs) || (rw == Rewrite.Intersection(cs) && 2 <= |cs|)
    requires |outs| == |cs| && (r.Err? ==> r in outs)
    requires forall i :: 0 <= i < |cs| ==> FailureRightIn(w, seen, k, cs[i], depth, outs[i])
    ensures FailureRightIn(w, seen, k, rw, depth, r)
  {
    if r.Err? {
      var i :| 0 <= i < |outs| && outs[i] == r;
      assert cs[i] in cs;
      PartFails(w, seen, k, cs[i], rw, depth, r);
    }
  }

  lemma ExclusionFails(w: World, seen: set<Key>, k: Key, b: Rewrite, s: Rewrite, depth: nat, ob: Outcome, os: Outcome,
                       r: Outcome)
    requires FailureRightIn(w, seen, k, b, depth, ob) && FailureRightIn(w, seen, k, s, depth, os)
    requires r.Err? ==> r == ob || r == os
    ensures FailureRightIn(w, seen, k, Difference(b, s), depth, r)
  {
    if r.Err? {
      PartFails(w, seen, k, if r == ob then b else s, Difference(b, s), depth, r);
    }
  }

  /** Every key on a chain is left once, so a chain is no deeper than there are keys. */
  lemma {:induction false} ChainIsBounded(w: World, root: Object, seen: set<Key>, k: Key, c: Chain)
    requires k.obj in Objects(w, root) && Walks(w, seen, k, c)
    ensures Descents(c) <= Unvisited(w, root, k.user, seen)
    decreases c
  {
    if !c.Stop? {
      VisitingDecreases(w, root, k, seen);
      assert c.to.obj in Objects(w, root) && c.to.user == k.user by {
        if c.Descend? && c.to.obj != k.obj {
          assert exists t :: t in w.tuples && t.user.obj == c.to.obj;
        }
      }
      ChainIsBounded(w, root, seen + {k}, c.to, c.rest);
    }
  }

  lemma DepthSuffices(w: World, k: Key)
    requires |Universe(w, k.obj, k.user)| < w.maxDepth
    ensures !Deep(w, {}, k, w.maxDepth)
  {
    assert Universe(w, k.obj, k.user) - {} == Universe(w, k.obj, k.user);
    forall c | Walks(w, {}, k, c)
      ensures Descents(c) < w.maxDepth
    {
      ChainIsBounded(w, k.obj, {}, k, c);
    }
  }

  // ---------------------------------------------------------------- steps of the correctness proof

  lemma UnionRight(w: World, z: Zone, k: Key, cs: seq<Rewrite>, cut: set<Key>, outs: seq<Outcome>, r: Outcome)
    requires |outs| == |cs|
    requires forall i :: 0 <= i < |cs| ==> RewriteRight(w, z, k, cs[i], cut, outs[i])
    requires UnionOf(outs, r)
    ensures RewriteRight(w, z, k, Rewrite.Union(cs), cut, r)
  {
    var rw := Rewrite.Union(cs);
    assert forall i, j :: 0 <= i < |cs| && LooksUp(w, k, cs[i], j) ==> LooksUp(w, k, rw, j);
    if Class(r) == Yes {
      var i :| 0 <= i < |outs| && outs[i] == r;
      assert RewriteRight(w, z, k, cs[i], cut, outs[i]);
    } else if Class(r) == No {
      forall i | 0 <= i < |cs|
        ensures outs[i].Resp? && !outs[i].allowed && (outs[i].cycle ==> r.cycle)
        ensures RewriteRight(w, z, k, cs[i], cut, outs[i])
      {
        assert outs[i] in outs;
        assert Class(outs[i]) != Yes && !outs[i].Err?;
        assert Cyclic(outs[i]) ==> r.cycle;
      }
      if r.cycle {
        var o :| o in outs && Cyclic(o);
        var i :| 0 <= i < |outs| && outs[i] == o;
      }
    }
  }

  lemma IntersectionRight(w: World, z: Zone, k: Key, cs: seq<Rewrite>, cut: set<Key>, outs: seq<Outcome>, r: Outcome)
    requires |outs| == |cs| && Coherent(r)
    requires forall i :: 0 <= i < |cs| ==> RewriteRight(w, z, k, cs[i], cut, outs[i])
    requires Class(r) == IntersectionClass(outs)
    requires Class(r) == No ==> exists o :: o in outs && Refusing(o) && o.cycle == r.cycle
    ensures RewriteRight(w, z, k, Rewrite.Intersection(cs), cut, r)
  {
    var rw := Rewrite.Intersection(cs);
    assert forall i, j :: 0 <= i < |cs| && LooksUp(w, k, cs[i], j) ==> LooksUp(w, k, rw, j);
    if Class(r) == No {
      var o :| o in outs && Refusing(o) && o.cycle == r.cycle;
      var i :| 0 <= i < |outs| && outs[i] == o;
      assert RewriteRight(w, z, k, cs[i], cut, outs[i]);
    } else if Class(r) == Yes {
      forall i | 0 <= i < |cs|
        ensures outs[i] == Resp(true, false)
        ensures RewriteRight(w, z, k, cs[i], cut, outs[i])
      {
        assert outs[i] in outs;
      }
    }
  }

  lemma DifferenceRight(w: World, z: Zone, k: Key, b: Rewrite, s: Rewrite, cut: set<Key>,
                        ob: Outcome, os: Outcome, r: Outcome)
    requires RewriteRight(w, z, k, b, cut, ob) && RewriteRight(w, z, k, s, cut, os) && Coherent(r)
    requires Class(r) == ExclusionClass(ob, os)
    requires Class(r) == No ==> (Refusing(ob) && r.cycle == ob.cycle) || (Subtracting(os) && r.cycle == os.cycle)
    ensures RewriteRight(w, z, k, Difference(b, s), cut, r)
  {
    var rw := Difference(b, s);
    assert forall j :: LooksUp(w, k, b, j) || LooksUp(w, k, s, j) ==> LooksUp(w, k, rw, j);
    if Class(r) == No && Settled(w, z) && Ready(w, z, k, rw, cut) && Fits(w, z, k, rw) {
      if !Refusing(ob) {
        // what is subtracted is settled in the zone, so its answer is not cyclic
        assert os == Resp(true, false) && RewriteHolds(w, k, s, z.model);
        LookupsDecide(w, k, s, z.model, Mix(z, Derivable(w, z, cut)));
      } else {
        assert ob.Resp? && !ob.allowed;
      }
    }
  }

  /** Up to one handler each for the user's own tuple, the public wildcard and the assigned usersets. */
  lemma DirectRight(w: World, z: Zone, k: Key, cut: set<Key>, d: seq<Outcome>, p: seq<Outcome>, u: seq<Outcome>,
                    r: Outcome)
    requires if d == [] then !DirectTuple(w, k) else |d| == 1 && Reads(d[0], DirectTuple(w, k))
    requires if p == [] then !PublicTuple(w, k) else |p| == 1 && Reads(p[0], PublicTuple(w, k))
    requires if u == [] then forall t :: !UsersetTuple(w, k, t) else |u| == 1 && UsersetsRight(w, z, k, cut, u[0])
    requires UnionOf(d + p + u, r)
    ensures RewriteRight(w, z, k, This, cut, r)
  {
    var outs := d + p + u;
    assert forall o :: o in outs <==> o in d || o in p || o in u;
    assert forall o :: o in outs ==> Coherent(o);
    assert (d != [] ==> d[0] in outs) && (p != [] ==> p[0] in outs) && (u != [] ==> u[0] in outs);
    if Class(r) == No {
      assert forall o :: o in outs ==> Class(o) == No && (Cyclic(o) ==> r.cycle);
      if r.cycle {
        assert u != [] && Cyclic(u[0]);
      }
    }
  }

  /** What one userset tuple contributes to the answer for `k`. */
  ghost predicate UsersetAnswer(w: World, z: Zone, k: Key, cut: set<Key>, t: Tuple, o: Outcome) {
    o.Resp? ==>
      && UsersetTuple(w, k, t)
      && if WildcardUserset(k, t) then o == Resp(true, false) else KeyRight(w, z, UsersetKey(k, t), cut, o)
  }

  ghost predicate ParentAnswer(w: World, z: Zone, k: Key, ts: string, cr: string, cut: set<Key>, t: Tuple, o: Outcome) {
    o.Resp? ==> ParentTuple(w, k, ts, cr, t) && KeyRight(w, z, ParentKey(k, cr, t), cut, o)
  }

  /** A right "no" for a key that may be asked for keeps it out of what is derivable around the visited keys. */
  lemma NoIsOut(w: World, z: Zone, j: Key, cut: set<Key>, o: Outcome)
    requires KeyRight(w, z, j, cut, o) && Class(o) == No && Settled(w, z) && OnTheWay(z, cut, j)
    ensures j !in Mix(z, Derivable(w, z, cut))
  {
  }

  /** Some right "no" for the key is among the outcomes; it is marked as cyclic only if `cycle` says so. */
  ghost predicate Denied(w: World, z: Zone, j: Key, cut: set<Key>, outs: seq<Outcome>, cycle: bool) {
    exists o :: o in outs && Class(o) == No && (o.cycle ==> cycle) && KeyRight(w, z, j, cut, o)
  }

  lemma DeniedIsOut(w: World, z: Zone, j: Key, cut: set<Key>, outs: seq<Outcome>, cycle: bool)
    requires Denied(w, z, j, cut, outs, cycle)
    ensures !cycle ==> forall S :: Fixpoint(w, S) ==> j !in S
    ensures Settled(w, z) && OnTheWay(z, cut, j) ==> j !in Mix(z, Derivable(w, z, cut))
  {
    var o :| o in outs && Class(o) == No && (o.cycle ==> cycle) && KeyRight(w, z, j, cut, o);
    if Settled(w, z) && OnTheWay(z, cut, j) {
      NoIsOut(w, z, j, cut, o);
    }
  }

  ghost predicate UsersetsDenied(w: World, z: Zone, k: Key, cut: set<Key>, outs: seq<Outcome>, cycle: bool) {
    forall t :: UsersetTuple(w, k, t) ==> !WildcardUserset(k, t) && Denied(w, z, UsersetKey(k, t), cut, outs, cycle)
  }

  lemma UsersetsOut(w: World, z: Zone, k: Key, cut: set<Key>, outs: seq<Outcome>, cycle: bool)
    requires UsersetsDenied(w, z, k, cut, outs, cycle)
    ensures !cycle ==> forall S :: Fixpoint(w, S) ==> !UsersetHolds(w, k, S)
    ensures Settled(w, z) && Ready(w, z, k, This, cut) ==> !UsersetHolds(w, k, Mix(z, Derivable(w, z, cut)))
  {
    forall t | UsersetTuple(w, k, t)
      ensures !cycle ==> forall S :: Fixpoint(w, S) ==> UsersetKey(k, t) !in S
      ensures Settled(w, z) && Ready(w, z, k, This, cut) ==> UsersetKey(k, t) !in Mix(z, Derivable(w, z, cut))
    {
      assert LooksUp(w, k, This, UsersetKey(k, t));
      DeniedIsOut(w, z, UsersetKey(k, t), cut, outs, cycle);
    }
  }

  /** In the zone no userset answers in a cycle. */
  lemma UsersetsUnmarked(w: World, z: Zone, k: Key, cut: set<Key>, srcs: seq<Tuple>, outs: seq<Outcome>)
    requires |outs| == |srcs| && forall i :: 0 <= i < |outs| ==> UsersetAnswer(w, z, k, cut, srcs[i], outs[i])
    requires Falling(w, z) && Ready(w, z, k, This, cut) && Inside(w, z, k, This)
    ensures !exists o :: o in outs && Cyclic(o)
  {
    forall i | 0 <= i < |outs|
      ensures !Cyclic(outs[i])
    {
      if outs[i].Resp? {
        assert LooksUp(w, k, This, UsersetKey(k, srcs[i]));
      }
    }
  }

  /** Dispatches over the userset tuples of `k`, possibly cut short by an error or a certain "yes". */
  lemma UsersetDispatchesRight(w: World, z: Zone, k: Key, cut: set<Key>,
                               srcs: seq<Tuple>, outs: seq<Outcome>, r: Outcome)
    requires |outs| == |srcs|
    requires forall i :: 0 <= i < |outs| ==> UsersetAnswer(w, z, k, cut, srcs[i], outs[i])
    requires (forall t :: UsersetTuple(w, k, t) ==> t in srcs) || (exists o :: o in outs && Class(o) != No)
    requires UnionOf(outs, r)
    ensures UsersetsRight(w, z, k, cut, r)
  {
    assert forall o :: o in outs ==> Coherent(o);
    if Class(r) == Yes {
      var i :| 0 <= i < |outs| && outs[i] == r;
      assert UsersetTuple(w, k, srcs[i]);
    } else if Class(r) == No {
      assert forall o :: o in outs ==> Class(o) == No && (Cyclic(o) ==> r.cycle);
      forall t | UsersetTuple(w, k, t)
        ensures !WildcardUserset(k, t) && Denied(w, z, UsersetKey(k, t), cut, outs, r.cycle)
      {
        var i :| 0 <= i < |srcs| && srcs[i] == t;
        assert outs[i] in outs;
      }
      UsersetsOut(w, z, k, cut, outs, r.cycle);
      if Falling(w, z) && Ready(w, z, k, This, cut) && Inside(w, z, k, This) {
        UsersetsUnmarked(w, z, k, cut, srcs, outs);
      }
    }
  }

  ghost predicate ParentsDenied(w: World, z: Zone, k: Key, ts: string, cr: string, cut: set<Key>,
                                outs: seq<Outcome>, cycle: bool) {
    forall t :: ParentTuple(w, k, ts, cr, t) ==> Denied(w, z, ParentKey(k, cr, t), cut, outs, cycle)
  }

  lemma ParentsOut(w: World, z: Zone, k: Key, ts: string, cr: string, cut: set<Key>, outs: seq<Outcome>, cycle: bool)
    requires ParentsDenied(w, z, k, ts, cr, cut, outs, cycle)
    ensures !cycle ==> forall S :: Fixpoint(w, S) ==> !RewriteHolds(w, k, TupleToUserset(ts, cr), S)
    ensures Settled(w, z) && Ready(w, z, k, TupleToUserset(ts, cr), cut) ==>
              !RewriteHolds(w, k, TupleToUserset(ts, cr), Mix(z, Derivable(w, z, cut)))
  {
    forall t | ParentTuple(w, k, ts, cr, t)
      ensures !cycle ==> forall S :: Fixpoint(w, S) ==> ParentKey(k, cr, t) !in S
      ensures Settled(w, z) && Ready(w, z, k, TupleToUserset(ts, cr), cut) ==>
                ParentKey(k, cr, t) !in Mix(z, Derivable(w, z, cut))
    {
      assert LooksUp(w, k, TupleToUserset(ts, cr), ParentKey(k, cr, t));
      DeniedIsOut(w, z, ParentKey(k, cr, t), cut, outs, cycle);
    }
  }

  lemma ParentsUnmarked(w: World, z: Zone, k: Key, ts: string, cr: string, cut: set<Key>,
                        srcs: seq<Tuple>, outs: seq<Outcome>)
    requires |outs| == |srcs| && forall i :: 0 <= i < |outs| ==> ParentAnswer(w, z, k, ts, cr, cut, srcs[i], outs[i])
    requires Falling(w, z) && Ready(w, z, k, TupleToUserset(ts, cr), cut) && Inside(w, z, k, TupleToUserset(ts, cr))
    ensures !exists o :: o in outs && Cyclic(o)
  {
    forall i | 0 <= i < |outs|
      ensures !Cyclic(outs[i])
    {
      if outs[i].Resp? {
        assert LooksUp(w, k, TupleToUserset(ts, cr), ParentKey(k, cr, srcs[i]));
      }
    }
  }

  lemma ParentDispatchesRight(w: World, z: Zone, k: Key, ts: string, cr: string, cut: set<Key>,
                              srcs: seq<Tuple>, outs: seq<Outcome>, r: Outcome)
    requires |outs| == |srcs|
    requires forall i :: 0 <= i < |outs| ==> ParentAnswer(w, z, k, ts, cr, cut, srcs[i], outs[i])
    requires (forall t :: ParentTuple(w, k, ts, cr, t) ==> t in srcs) || (exists o :: o in outs && Class(o) != No)
    requires UnionOf(outs, r)
    ensures RewriteRight(w, z, k, TupleToUserset(ts, cr), cut, r)
  {
    assert forall o :: o in outs ==> Coherent(o);
    if Class(r) == Yes {
      var i :| 0 <= i < |outs| && outs[i] == r;
      assert ParentTuple(w, k, ts, cr, srcs[i]);
    } else if Class(r) == No {
      assert forall o :: o in outs ==> Class(o) == No && (Cyclic(o) ==> r.cycle);
      forall t | ParentTuple(w, k, ts, cr, t)
        ensures Denied(w, z, ParentKey(k, cr, t), cut, outs, r.cycle)
      {
        var i :| 0 <= i < |srcs| && srcs[i] == t;
        assert outs[i] in outs;
      }
      ParentsOut(w, z, k, ts, cr, cut, outs, r.cycle);
      var rw := TupleToUserset(ts, cr);
      if Falling(w, z) && Ready(w, z, k, rw, cut) && Inside(w, z, k, rw) {
        ParentsUnmarked(w, z, k, ts, cr, cut, srcs, outs);
      }
    }
  }

  /** A computed relation is one key. */
  lemma ComputedRight(w: World, z: Zone, k: Key, relation: string, cut: set<Key>, r: Outcome)
    requires KeyRight(w, z, Key(k.obj, relation, k.user), cut, r)
    ensures RewriteRight(w, z, k, Computed(relation), cut, r)
  {
    assert LooksUp(w, k, Computed(relation), Key(k.obj, relation, k.user));
    if Class(r) == No && Settled(w, z) && OnTheWay(z, cut, Key(k.obj, relation, k.user)) {
      NoIsOut(w, z, Key(k.obj, relation, k.user), cut, r);
    }
  }

  /** Visiting a key of the way leaves whatever it looks up on the way. */
  lemma VisitingIsReady(w: World, z: Zone, k: Key, visited: set<Key>)
    requires Falling(w, z) && OnTheWay(z, visited, k) && Evaluated(w, k)
    ensures Ready(w, z, k, w.rewrites[(k.obj.typ, k.relation)], visited + {k})
  {
    forall j | LooksUp(w, k, w.rewrites[(k.obj.typ, k.relation)], j)
      ensures OnTheWay(z, visited + {k}, j)
    {
      assert Asks(w, k, j);
    }
  }

  /** The heart of the matter: the answer of the rewrite, computed with `k` visited, is right for `k`. */
  lemma RewriteAnswersKey(w: World, z: Zone, k: Key, visited: set<Key>, r: Outcome)
    requires Evaluated(w, k)
    requires RewriteRight(w, z, k, w.rewrites[(k.obj.typ, k.relation)], visited + {k}, r)
    ensures KeyRight(w, z, k, visited, r)
  {
    var rw := w.rewrites[(k.obj.typ, k.relation)];
    if Falling(w, z) && OnTheWay(z, visited, k) {
      VisitingIsReady(w, z, k, visited);
      if k in z.keys {
        assert forall j :: LooksUp(w, k, rw, j) ==> Asks(w, k, j);
      }
      if r.Resp? && Settled(w, z) && !r.allowed {
        CutIsHarmless(w, z, visited, k);
      }
    }
  }

  lemma VisitedIsRight(w: World, z: Zone, k: Key, visited: set<Key>)
    requires k in visited
    ensures KeyRight(w, z, k, visited, Resp(false, true))
  {
    CutKeysUnderivable(w, z, visited, k);
  }

  /** Answers that need no rewrite: the key defines itself, or the model has no path to it. */
  lemma SettledIsRight(w: World, z: Zone, k: Key, visited: set<Key>)
    requires !Evaluated(w, k)
    ensures KeyRight(w, z, k, visited, Resp(SelfDefining(k), false))
  {
    if !SelfDefining(k) {
      UngrantedUnderivable(w, z, visited, k);
    }
  }

  // ---------------------------------------------------------------- the cache

  /** The stored answer is what every fixpoint says, whatever path asks for it. */
  ghost predicate EntryRight(w: World, k: Key, r: Outcome) {
    && r.Resp? && !r.cycle
    && forall S :: Fixpoint(w, S) ==> (r.allowed <==> k in S)
  }

  ghost predicate CacheRight(w: World, m: map<Key, Outcome>) {
    forall k :: k in m ==> EntryRight(w, k, m[k])
  }

  /** A right entry may be served on any path. */
  lemma EntryServesEveryPath(w: World, z: Zone, k: Key, visited: set<Key>, r: Outcome)
    requires EntryRight(w, k, r)
    ensures KeyRight(w, z, k, visited, r)
  {
    if Settled(w, z) {
      DerivableIsInFixpoint(w, z, visited);
    }
  }

  /**
   Why cyclic answers are not stored. When `k` is computed from a granted key `j`, a path through
   `j` may rightly answer "no, in a cycle" for `k`, yet as a cache entry that "no" would be wrong.
   */
  lemma CyclicAnswerIsPathDependent(w: World, k: Key, j: Key)
    requires Positive(w) && Evaluated(w, k) && k != j
    requires w.rewrites[(k.obj.typ, k.relation)] == Computed(j.relation) && k.obj == j.obj && k.user == j.user
    requires j in Granted(w)
    ensures KeyRight(w, LeastZone(w), k, {j}, Resp(false, true))
    ensures !EntryRight(w, k, Resp(false, false))
  {
    var z := LeastZone(w);
    GrantedIsLeastFixpoint(w);
    assert Rule(w, k, Granted(w));
    PositiveFits(w, z);
    CutKeysUnderivable(w, z, {j} + {k}, j);
    CutIsHarmless(w, z, {j}, k);
  }

  // ---------------------------------------------------------------- the evaluator

  /** The outcomes reach the reducer in whatever order the handlers finish. */
  method UnionInAnyOrder(outs: seq<Outcome>) returns (r: Outcome)
    ensures UnionOf(outs, r)
    ensures r.Err? ==> r in outs
  {
    var arrivals := Arrive(outs);
    r := Reducers.Union(arrivals);
    ArrivalOrderIrrelevant(arrivals, outs);
  }

  /** `caching` says whether dispatches pass through the cached resolver. */
  class Checker {
    const w: World
    const caching: bool
    var cache: map<Key, Outcome>

    constructor (w: World, caching: bool)
      ensures this.w == w && this.caching == caching && Valid() && cache == map[]
    {
      this.w := w;
      this.caching := caching;
      cache := map[];
    }

    ghost predicate Valid()
      reads this
    {
      CacheRight(w, cache)
    }

    method Fails() returns (failed: bool)
      ensures failed ==> !w.reliable
    {
      failed := false;
      if !w.reliable {
        failed := *;
      }
    }

    /** `others` holds what other requests may have left in the shared cache by the time of a lookup. */
    method ResolveCheck(ghost z: Zone, ghost root: Object, k: Key, visited: set<Key>, depth: nat,
                        others: seq<map<Key, Outcome>>)
      returns (r: Outcome)
      requires Valid() && k.obj in Objects(w, root)
      requires forall m :: m in others ==> CacheRight(w, m)
      modifies this`cache
      ensures !caching ==> cache == old(cache)
      ensures Valid()
      ensures KeyRight(w, z, k, visited, r)
      ensures FailureRight(w, visited, k, depth, r)
      // the depth limit comes before everything else, and a lookup that is already under way before its meaning
      ensures depth == w.maxDepth ==> r == Err(DEPTH_EXCEEDED)
      ensures depth != w.maxDepth && k in visited ==> r == Resp(false, true)
      ensures depth != w.maxDepth && k !in visited && k.user == User(k.obj, k.relation) ==> r == Resp(true, false)
      decreases Unvisited(w, root, k.user, visited), 0
    {
      if depth == w.maxDepth {
        TooDeep(w, visited, k);
        return Err(DEPTH_EXCEEDED);
      }
      if k in visited {
        VisitedIsRight(w, z, k, visited);
        return Resp(false, true);
      }
      if SelfDefining(k) {
        SettledIsRight(w, z, k, visited);
        return Resp(true, false);
      }
      if !Defined(w, k.obj.typ, k.relation) {
        return Err(RELATION_UNDEFINED);
      }
      var failed := Fails();
      if failed {
        return Err(READ_FAILED);
      }
      if !w.pathExists(k.user, k.relation, k.obj.typ) {
        SettledIsRight(w, z, k, visited);
        return Resp(false, false);
      }
      VisitingDecreases(w, root, k, visited);
      r := CheckRewrite(z, root, k, w.rewrites[(k.obj.typ, k.relation)], visited + {k}, depth, others);
      RewriteAnswersKey(w, z, k, visited, r);
      KeyFails(w, visited, k, depth, r);
    }

    method CheckRewrite(ghost z: Zone, ghost root: Object, k: Key, rw: Rewrite, visited: set<Key>, depth: nat,
                        others: seq<map<Key, Outcome>>)
      returns (r: Outcome)
      requires Valid() && k.obj in Objects(w, root)
      requires forall m :: m in others ==> CacheRight(w, m)
      modifies this`cache
      ensures !caching ==> cache == old(cache)
      ensures Valid()
      ensures RewriteRight(w, z, k, rw, visited, r)
      ensures FailureRightIn(w, visited, k, rw, depth, r)
      decreases Unvisited(w, root, k.user, visited), 3, rw
    {
      match rw
      case This =>
        r := CheckDirect(z, root, k, visited, depth, others);
      case Computed(relation) =>
        r := ResolveCheck(z, root, Key(k.obj, relation, k.user), visited, depth, others);
        ComputedRight(w, z, k, relation, visited, r);
        RenameFails(w, visited, k, relation, depth, r);
      case TupleToUserset(ts, cr) =>
        r := CheckParents(z, root, k, ts, cr, visited, depth, others);
      case Union(cs) =>
        var outs := CheckChildren(z, root, k, rw, cs, visited, depth, others);
        r := UnionInAnyOrder(outs);
        UnionRight(w, z, k, cs, visited, outs, r);
        OperandFails(w, visited, k, cs, rw, outs, depth, r);
      case Intersection(cs) =>
        var outs := CheckChildren(z, root, k, rw, cs, visited, depth, others);
        var arrivals := Arrive(outs);
        r := Reducers.Intersection(arrivals);
        ArrivalOrderIrrelevant(arrivals, outs);
        IntersectionRight(w, z, k, cs, visited, outs, r);
        if |cs| >= 2 {
          OperandFails(w, visited, k, cs, rw, outs, depth, r);
        }
      case Difference(base, sub) =>
        var ob := CheckRewrite(z, root, k, base, visited, depth, others);
        var os := CheckRewrite(z, root, k, sub, visited, depth, others);
        var baseFirst: bool := *;
        r := Exclusion(ob, os, baseFirst);
        DifferenceRight(w, z, k, base, sub, visited, ob, os, r);
        ExclusionFails(w, visited, k, base, sub, depth, ob, os, r);
    }

    method CheckChildren(ghost z: Zone, ghost root: Object, k: Key, ghost rw: Rewrite, cs: seq<Rewrite>,
                         visited: set<Key>, depth: nat, others: seq<map<Key, Outcome>>)
      returns (outs: seq<Outcome>)
      requires Valid() && k.obj in Objects(w, root)
      requires forall c :: c in cs ==> c < rw
      requires forall m :: m in others ==> CacheRight(w, m)
      modifies this`cache
      ensures !caching ==> cache == old(cache)
      ensures Valid() && |outs| == |cs|
      ensures forall i :: 0 <= i < |cs| ==> RewriteRight(w, z, k, cs[i], visited, outs[i])
      ensures forall i :: 0 <= i < |cs| ==> FailureRightIn(w, visited, k, cs[i], depth, outs[i])
      decreases Unvisited(w, root, k.user, visited), 3, rw, 0
    {
      outs := [];
      for i := 0 to |cs|
        invariant Valid() && |outs| == i && (!caching ==> cache == old(cache))
        invariant forall j :: 0 <= j < i ==> RewriteRight(w, z, k, cs[j], visited, outs[j])
        invariant forall j :: 0 <= j < i ==> FailureRightIn(w, visited, k, cs[j], depth, outs[j])
      {
        assert cs[i] in cs;
        var o := CheckRewrite(z, root, k, cs[i], visited, depth, others);
        outs := outs + [o];
      }
    }

    method ReadTuple(found: bool) returns (r: Outcome)
      ensures Reads(r, found)
      ensures r.Err? ==> r == Err(READ_FAILED) && !w.reliable
    {
      var failed := Fails();
      r := if failed then Err(READ_FAILED) else Resp(found, false);
    }

    /** The user's own tuple and the public wildcard's, each read only where the model assigns it. */
    method OwnTuples(k: Key) returns (d: seq<Outcome>, p: seq<Outcome>)
      ensures if d == [] then !DirectTuple(w, k) else |d| == 1 && Reads(d[0], DirectTuple(w, k))
      ensures if p == [] then !PublicTuple(w, k) else |p| == 1 && Reads(p[0], PublicTuple(w, k))
      ensures forall o :: o in d + p && o.Err? ==> o == Err(READ_FAILED) && !w.reliable
    {
      d, p := [], [];
      if w.directlyRelated(k.obj.typ, k.relation, k.user) {
        var o := ReadTuple(Tuple(k.obj, k.relation, k.user) in w.tuples);
        d := [o];
      }
      if k.user.relation == "" && w.publiclyAssignable(k.obj.typ, k.relation, k.user.obj.typ) {
        var o := ReadTuple(Tuple(k.obj, k.relation, User(Object(k.user.obj.typ, WILDCARD), "")) in w.tuples);
        p := [o];
      }
    }

    /** Up to three handlers: the user's own tuple, the public wildcard, and the assigned usersets. */
    method CheckDirect(ghost z: Zone, ghost root: Object, k: Key, visited: set<Key>, depth: nat,
                       others: seq<map<Key, Outcome>>)
      returns (r: Outcome)
      requires Valid() && k.obj in Objects(w, root)
      requires forall m :: m in others ==> CacheRight(w, m)
      modifies this`cache
      ensures !caching ==> cache == old(cache)
      ensures Valid()
      ensures RewriteRight(w, z, k, This, visited, r)
      ensures FailureRightIn(w, visited, k, This, depth, r)
      decreases Unvisited(w, root, k.user, visited), 2, 2
    {
      var d, p := OwnTuples(k);
      var u := [];
      if w.usersetTypes(k.obj.typ, k.relation) != {} {
        var o := CheckUsersets(z, root, k, visited, depth, others);
        u := [o];
      }
      r := UnionInAnyOrder(d + p + u);
      DirectRight(w, z, k, visited, d, p, u, r);
    }

    method CheckUsersets(ghost z: Zone, ghost root: Object, k: Key, visited: set<Key>, depth: nat,
                        others: seq<map<Key, Outcome>>)
      returns (r: Outcome)
      requires Valid() && k.obj in Objects(w, root)
      requires forall m :: m in others ==> CacheRight(w, m)
      modifies this`cache
      ensures !caching ==> cache == old(cache)
      ensures Valid()
      ensures UsersetsRight(w, z, k, visited, r)
      ensures FailureRightIn(w, visited, k, This, depth, r)
      decreases Unvisited(w, root, k.user, visited), 2, 1
    {
      var outs, srcs := UsersetOutcomes(z, root, k, visited, depth, others);
      r := UnionInAnyOrder(outs);
      UsersetDispatchesRight(w, z, k, visited, srcs, outs, r);
    }

    /** One outcome for each userset tuple read, in reading order. */
    method UsersetOutcomes(ghost z: Zone, ghost root: Object, k: Key, visited: set<Key>, depth: nat,
                        others: seq<map<Key, Outcome>>)
      returns (outs: seq<Outcome>, ghost srcs: seq<Tuple>)
      requires Valid() && k.obj in Objects(w, root)
      requires forall m :: m in others ==> CacheRight(w, m)
      modifies this`cache
      ensures !caching ==> cache == old(cache)
      ensures Valid() && |outs| == |srcs|
      ensures forall j :: 0 <= j < |outs| ==> UsersetAnswer(w, z, k, visited, srcs[j], outs[j])
      ensures (forall t :: UsersetTuple(w, k, t) ==> t in srcs) || (exists o :: o in outs && Class(o) != No)
      ensures forall o :: o in outs ==> FailureRightIn(w, visited, k, This, depth, o)
      decreases Unvisited(w, root, k.user, visited), 2, 0
    {
      outs, srcs := [], [];
      var i := 0;
      while i < |w.tuples|
        invariant 0 <= i <= |w.tuples| && Valid() && |outs| == |srcs| && (!caching ==> cache == old(cache))
        invariant forall j :: 0 <= j < |outs| ==> UsersetAnswer(w, z, k, visited, srcs[j], outs[j])
        invariant forall j :: 0 <= j < i && UsersetTuple(w, k, w.tuples[j]) ==> w.tuples[j] in srcs
        invariant forall o :: o in outs ==> FailureRightIn(w, visited, k, This, depth, o)
      {
        var t := w.tuples[i];
        var failed := Fails();
        if failed {
          outs, srcs := outs + [Err(READ_FAILED)], srcs + [t];
          assert outs[|outs| - 1] in outs;
          return;
        }
        if UsersetTuple(w, k, t) {
          if WildcardUserset(k, t) {
            outs, srcs := outs + [Resp(true, false)], srcs + [t];
            assert outs[|outs| - 1] in outs;
            return;
          }
          var o := AskUserset(z, root, k, visited, depth, t, others);
          outs, srcs := outs + [o], srcs + [t];
        }
        i := i + 1;
      }
      var failed := Fails();
      if failed {
        outs, srcs := outs + [Err(READ_FAILED)], srcs + [Tuple(k.obj, k.relation, k.user)];
        assert outs[|outs| - 1] in outs;
      }
    }

    method AskUserset(ghost z: Zone, ghost root: Object, k: Key, visited: set<Key>, depth: nat, t: Tuple,
                        others: seq<map<Key, Outcome>>)
      returns (o: Outcome)
      requires Valid() && UsersetTuple(w, k, t) && !WildcardUserset(k, t)
      requires forall m :: m in others ==> CacheRight(w, m)
      modifies this`cache
      ensures !caching ==> cache == old(cache)
      ensures Valid()
      ensures UsersetAnswer(w, z, k, visited, t, o)
      ensures FailureRightIn(w, visited, k, This, depth, o)
      decreases Unvisited(w, root, k.user, visited), 1, 1
    {
      assert t.user.obj in Objects(w, root);
      o := Dispatch(z, root, UsersetKey(k, t), visited, depth + 1, others);
      UsersetFails(w, visited, k, t, depth, o);
    }

    method CheckParents(ghost z: Zone, ghost root: Object, k: Key, ts: string, cr: string, visited: set<Key>,
                        depth: nat, others: seq<map<Key, Outcome>>)
      returns (r: Outcome)
      requires Valid() && k.obj in Objects(w, root)
      requires forall m :: m in others ==> CacheRight(w, m)
      modifies this`cache
      ensures !caching ==> cache == old(cache)
      ensures Valid()
      ensures RewriteRight(w, z, k, TupleToUserset(ts, cr), visited, r)
      ensures FailureRightIn(w, visited, k, TupleToUserset(ts, cr), depth, r)
      decreases Unvisited(w, root, k.user, visited), 2, 1
    {
      var outs, srcs := ParentOutcomes(z, root, k, ts, cr, visited, depth, others);
      r := UnionInAnyOrder(outs);
      ParentDispatchesRight(w, z, k, ts, cr, visited, srcs, outs, r);
    }

    /** One outcome for each parent tuple read, in reading order. */
    method ParentOutcomes(ghost z: Zone, ghost root: Object, k: Key, ts: string, cr: string, visited: set<Key>,
                          depth: nat, others: seq<map<Key, Outcome>>)
      returns (outs: seq<Outcome>, ghost srcs: seq<Tuple>)
      requires Valid() && k.obj in Objects(w, root)
      requires forall m :: m in others ==> CacheRight(w, m)
      modifies this`cache
      ensures !caching ==> cache == old(cache)
      ensures Valid() && |outs| == |srcs|
      ensures forall j :: 0 <= j < |outs| ==> ParentAnswer(w, z, k, ts, cr, visited, srcs[j], outs[j])
      ensures (forall t :: ParentTuple(w, k, ts, cr, t) ==> t in srcs) || (exists o :: o in outs && Class(o) != No)
      ensures forall o :: o in outs ==> FailureRightIn(w, visited, k, TupleToUserset(ts, cr), depth, o)
      decreases Unvisited(w, root, k.user, visited), 2, 0
    {
      outs, srcs := [], [];
      var i := 0;
      while i < |w.tuples|
        invariant 0 <= i <= |w.tuples| && Valid() && |outs| == |srcs| && (!caching ==> cache == old(cache))
        invariant forall j :: 0 <= j < |outs| ==> ParentAnswer(w, z, k, ts, cr, visited, srcs[j], outs[j])
        invariant forall j :: 0 <= j < i && ParentTuple(w, k, ts, cr, w.tuples[j]) ==> w.tuples[j] in srcs
        invariant forall o :: o in outs ==> FailureRightIn(w, visited, k, TupleToUserset(ts, cr), depth, o)
      {
        var t := w.tuples[i];
        var failed := Fails();
        if failed {
          outs, srcs := outs + [Err(READ_FAILED)], srcs + [t];
          assert outs[|outs| - 1] in outs;
          return;
        }
        if ParentTuple(w, k, ts, cr, t) {
          var o := AskParent(z, root, k, ts, cr, visited, depth, t, others);
          outs, srcs := outs + [o], srcs + [t];
        }
        i := i + 1;
      }
      var failed := Fails();
      if failed {
        outs, srcs := outs + [Err(READ_FAILED)], srcs + [Tuple(k.obj, k.relation, k.user)];
        assert outs[|outs| - 1] in outs;
      }
    }

    method AskParent(ghost z: Zone, ghost root: Object, k: Key, ts: string, cr: string, visited: set<Key>, depth: nat,
                     t: Tuple, others: seq<map<Key, Outcome>>)
      returns (o: Outcome)
      requires Valid() && ParentTuple(w, k, ts, cr, t)
      requires forall m :: m in others ==> CacheRight(w, m)
      modifies this`cache
      ensures !caching ==> cache == old(cache)
      ensures Valid()
      ensures ParentAnswer(w, z, k, ts, cr, visited, t, o)
      ensures FailureRightIn(w, visited, k, TupleToUserset(ts, cr), depth, o)
      decreases Unvisited(w, root, k.user, visited), 1, 1
    {
      assert t.user.obj in Objects(w, root);
      o := Dispatch(z, root, ParentKey(k, cr, t), visited, depth + 1, others);
      ParentFails(w, visited, k, ts, cr, t, depth, o);
    }

    /** The delegate chain. A cached answer may be missing, refused as outdated, or bypassed by the request. */
    method Dispatch(ghost z: Zone, ghost root: Object, k: Key, visited: set<Key>, depth: nat,
                    others: seq<map<Key, Outcome>>)
      returns (r: Outcome)
      requires Valid() && k.obj in Objects(w, root)
      requires forall m :: m in others ==> CacheRight(w, m)
      modifies this`cache
      ensures !caching ==> cache == old(cache)
      ensures Valid()
      ensures KeyRight(w, z, k, visited, r)
      ensures FailureRight(w, visited, k, depth, r)
      // an answer that may be served again is in the cache, or came from it
      ensures caching && r.Resp? && !r.cycle ==>
                (k in cache && cache[k] == r) || exists m :: m in others && k in m && m[k] == r
      decreases Unvisited(w, root, k.user, visited), 1, 0
    {
      if !caching {
        r := ResolveCheck(z, root, k, visited, depth, others);
        return;
      }
      var snapshot := cache;
      if |others| > 0 {
        var i :| 0 <= i <= |others|;
        snapshot := if i < |others| then others[i] else cache;
      }
      var usable: bool := *;
      if usable && k in snapshot {
        assert CacheRight(w, snapshot);
        EntryServesEveryPath(w, z, k, visited, snapshot[k]);
        return snapshot[k];
      }
      r := ResolveCheck(z, root, k, visited, depth, others);
      if r.Resp? && !r.cycle {
        cache := cache[k := r];
      }
    }

    /** A whole check, from an empty path, against the model of a zone. */
    method CheckAgainst(ghost z: Zone, k: Key, others: seq<map<Key, Outcome>>) returns (r: Outcome)
      requires Valid()
      requires forall m :: m in others ==> CacheRight(w, m)
      modifies this`cache
      ensures !caching ==> cache == old(cache)
      ensures Valid()
      ensures Settled(w, z) && r.Resp? ==> (r.allowed <==> k in z.model)
      ensures Falling(w, z) && k in z.keys && r.Resp? ==> !r.cycle
      ensures r.Resp? && !r.cycle ==> forall S :: Fixpoint(w, S) ==> (r.allowed <==> k in S)
      ensures caching && r.Resp? && !r.cycle ==>
                (k in cache && cache[k] == r) || exists m :: m in others && k in m && m[k] == r
      ensures Coherent(r)
      // the depth error comes only if some chain of lookups descends that often, which takes as many keys
      ensures r == Err(DEPTH_EXCEEDED) ==> Deep(w, {}, k, w.maxDepth) && w.maxDepth <= |Universe(w, k.obj, k.user)|
      ensures Sturdy(w) && Defined(w, k.obj.typ, k.relation) && !Deep(w, {}, k, w.maxDepth) ==> r.Resp?
      ensures Sturdy(w) && Defined(w, k.obj.typ, k.relation) && |Universe(w, k.obj, k.user)| < w.maxDepth ==> r.Resp?
    {
      assert OnTheWay(z, {}, k);
      if |Universe(w, k.obj, k.user)| < w.maxDepth {
        DepthSuffices(w, k);
      }
      r := Dispatch(z, k.obj, k, {}, 0, others);
    }

    /** A whole check. Without exclusion the answer is membership in the least fixpoint. */
    method Check(k: Key, others: seq<map<Key, Outcome>>) returns (r: Outcome)
      requires Valid()
      requires forall m :: m in others ==> CacheRight(w, m)
      modifies this`cache
      ensures !caching ==> cache == old(cache)
      ensures Valid()
      ensures Positive(w) && r.Resp? ==> (r.allowed <==> k in Granted(w))
      ensures r.Resp? && !r.cycle ==> forall S :: Fixpoint(w, S) ==> (r.allowed <==> k in S)
      ensures caching && r.Resp? && !r.cycle ==>
                (k in cache && cache[k] == r) || exists m :: m in others && k in m && m[k] == r
      ensures Coherent(r)
      // the depth error comes only if some chain of lookups descends that often, which takes as many keys
      ensures r == Err(DEPTH_EXCEEDED) ==> Deep(w, {}, k, w.maxDepth) && w.maxDepth <= |Universe(w, k.obj, k.user)|
      ensures Sturdy(w) && Defined(w, k.obj.typ, k.relation) && !Deep(w, {}, k, w.maxDepth) ==> r.Resp?
      ensures Sturdy(w) && Defined(w, k.obj.typ, k.relation) && |Universe(w, k.obj, k.user)| < w.maxDepth ==> r.Resp?
    {
      if Positive(w) {
        PositiveIsSettled(w);
      }
      r := CheckAgainst(LeastZone(w), k, others);
    }
  }

  /** The cached chain and the plain evaluator agree on every root request that both answer. */
  method CacheIsTransparent(plain: Checker, cached: Checker, k: Key, others: seq<map<Key, Outcome>>)
    returns (a: Outcome, b: Outcome)
    requires plain.w == cached.w && Positive(plain.w) && !plain.caching && cached.caching
    requires plain.Valid() && cached.Valid()
    requires forall m :: m in others ==> CacheRight(cached.w, m)
    modifies plain`cache, cached`cache
    ensures a.Resp? && b.Resp? ==> a.allowed == b.allowed
    ensures plain.cache == old(plain.cache)
  {
    a := plain.Check(k, []);
    b := cached.Check(k, others);
  }
}
