/**
 What the recursive resolvers have to do with the meaning of a check: for a relation that is assigned
 directly, and otherwise through usersets of itself or through itself on a parent, being granted is reaching,
 along those usersets or parents, an object on which the relation holds directly. Objects of the relation's
 type are numbered by their place in a list.
 */
module RecursiveMeaning {
  import opened Rules
  import R = Reachability
  import RecursiveV1
  import WorkSharing
  import WorkSharingExact
  import WorkSharingResolver

  /** How the relation refers to itself. */
  datatype Form = Usersets | Parents(tupleset: string)

  /** The relation, the user who asks, and the objects of the relation's type. */
  datatype Ask = Ask(form: Form, typ: string, relation: string, user: User, objs: seq<Object>)

  ghost predicate Listed(a: Ask) {
    && (forall o :: o in a.objs ==> o.typ == a.typ)
    && (forall i, j :: 0 <= i < j < |a.objs| ==> a.objs[i] != a.objs[j])
  }

  /**
   The relation is a direct assignment whose only usersets are those of the relation itself, or a direct
   assignment without usersets or the same relation on a parent; its objects are listed.
   */
  ghost predicate SelfRecursive(w: World, a: Ask) {
    && (a.typ, a.relation) in w.rewrites && Listed(a)
    && match a.form
       case Usersets =>
         && w.rewrites[(a.typ, a.relation)] == This && w.usersetTypes(a.typ, a.relation) <= {(a.typ, a.relation)}
         && forall t :: t in w.tuples && t.user.obj.typ == a.typ ==> t.user.obj in a.objs
       case Parents(ts) =>
         && w.rewrites[(a.typ, a.relation)] == Union([This, TupleToUserset(ts, a.relation)])
         && w.usersetTypes(a.typ, a.relation) == {}
         && forall t :: t in w.tuples && t.obj.typ == a.typ && t.relation == ts ==> t.user.obj in a.objs
  }

  function KeyAt(a: Ask, i: nat): Key
    requires i < |a.objs|
  {
    Key(a.objs[i], a.relation, a.user)
  }

  ghost predicate SomeWildcard(w: World, k: Key) {
    exists t :: UsersetTuple(w, k, t) && WildcardUserset(k, t)
  }

  /** The relation holds without following a userset. */
  ghost predicate HoldsDirectly(w: World, k: Key) {
    || SelfDefining(k)
    || (w.pathExists(k.user, k.relation, k.obj.typ) && (DirectTuple(w, k) || PublicTuple(w, k) || SomeWildcard(w, k)))
  }

  /** A userset of the second object is assigned to the first one, or the second is a parent of the first. */
  predicate Leads(w: World, a: Ask, o: Object, next: Object) {
    && w.pathExists(a.user, a.relation, a.typ)
    && match a.form
       case Usersets => UsersetTuple(w, Key(o, a.relation, a.user), Tuple(o, a.relation, User(next, a.relation)))
       case Parents(ts) => exists t :: t in w.tuples && t.obj == o && t.relation == ts && t.user.obj == next
  }

  ghost function Base(w: World, a: Ask): set<nat> {
    set i | 0 <= i < |a.objs| && HoldsDirectly(w, KeyAt(a, i))
  }

  function Successors(w: World, a: Ask, i: nat): set<nat>
    requires i < |a.objs|
  {
    set j | 0 <= j < |a.objs| && Leads(w, a, a.objs[i], a.objs[j])
  }

  function GraphOf(w: World, a: Ask): R.Graph {
    map i: nat | i < |a.objs| :: Successors(w, a, i)
  }

  lemma UsersetRule(w: World, a: Ask, i: nat, S: iset<Key>)
    requires SelfRecursive(w, a) && a.form.Usersets? && i < |a.objs| && !HoldsDirectly(w, KeyAt(a, i))
    ensures Rule(w, KeyAt(a, i), S) <==> exists j :: j in R.Succ(GraphOf(w, a), i) && KeyAt(a, j) in S
  {
    var k := KeyAt(a, i);
    assert a.objs[i] in a.objs;
    if Rule(w, k, S) {
      var t :| UsersetTuple(w, k, t) && (WildcardUserset(k, t) || UsersetKey(k, t) in S);
      assert SomeWildcard(w, k) || !WildcardUserset(k, t);
      assert t.user.obj in a.objs && t == Tuple(k.obj, a.relation, User(t.user.obj, a.relation));
      var j :| 0 <= j < |a.objs| && a.objs[j] == t.user.obj;
      assert j in R.Succ(GraphOf(w, a), i) && KeyAt(a, j) == UsersetKey(k, t);
    }
    if j :| j in R.Succ(GraphOf(w, a), i) && KeyAt(a, j) in S {
      var t := Tuple(a.objs[i], a.relation, User(a.objs[j], a.relation));
      assert UsersetTuple(w, k, t) && UsersetKey(k, t) == KeyAt(a, j);
    }
  }

  lemma ParentRule(w: World, a: Ask, i: nat, S: iset<Key>)
    requires SelfRecursive(w, a) && a.form.Parents? && i < |a.objs| && !HoldsDirectly(w, KeyAt(a, i))
    ensures Rule(w, KeyAt(a, i), S) <==> exists j :: j in R.Succ(GraphOf(w, a), i) && KeyAt(a, j) in S
  {
    var k, ts := KeyAt(a, i), a.form.tupleset;
    var up := TupleToUserset(ts, a.relation);
    assert a.objs[i] in a.objs && forall t :: !UsersetTuple(w, k, t);
    ParentUnion(w, a, k, S);
    if Rule(w, k, S) {
      assert RewriteHolds(w, k, up, S);
      var t :| ParentTuple(w, k, ts, a.relation, t) && ParentKey(k, a.relation, t) in S;
      assert t.user.obj in a.objs;
      var j :| 0 <= j < |a.objs| && a.objs[j] == t.user.obj;
      assert j in R.Succ(GraphOf(w, a), i) && KeyAt(a, j) == ParentKey(k, a.relation, t);
    }
    if j :| j in R.Succ(GraphOf(w, a), i) && KeyAt(a, j) in S {
      var t :| t in w.tuples && t.obj == k.obj && t.relation == ts && t.user.obj == a.objs[j];
      assert a.objs[j] in a.objs;
      assert ParentTuple(w, k, ts, a.relation, t) && ParentKey(k, a.relation, t) == KeyAt(a, j);
      assert RewriteHolds(w, k, up, S);
    }
  }

  lemma ParentUnion(w: World, a: Ask, k: Key, S: iset<Key>)
    requires SelfRecursive(w, a) && a.form.Parents? && k.obj.typ == a.typ && k.relation == a.relation
    ensures RewriteHolds(w, k, w.rewrites[(a.typ, a.relation)], S) <==>
              RewriteHolds(w, k, This, S) || RewriteHolds(w, k, TupleToUserset(a.form.tupleset, a.relation), S)
  {
    var cs := [This, TupleToUserset(a.form.tupleset, a.relation)];
    assert cs[0] == This && cs[1] == TupleToUserset(a.form.tupleset, a.relation);
  }

  /** What the rule for the relation says: directly, or on an object that a userset or a parent leads to. */
  lemma RuleAt(w: World, a: Ask, i: nat, S: iset<Key>)
    requires SelfRecursive(w, a) && i < |a.objs|
    ensures Rule(w, KeyAt(a, i), S) <==>
              i in Base(w, a) || exists j :: j in R.Succ(GraphOf(w, a), i) && KeyAt(a, j) in S
  {
    assert a.objs[i] in a.objs;
    if !HoldsDirectly(w, KeyAt(a, i)) {
      if a.form.Usersets? {
        UsersetRule(w, a, i, S);
      } else {
        ParentRule(w, a, i, S);
      }
    } else if a.form.Parents? {
      ParentUnion(w, a, KeyAt(a, i), S);
    }
  }

  /** In every fixpoint, a chain that ends in the fixpoint or in the base starts in the fixpoint. */
  lemma {:induction false} PathInFixpoint(w: World, a: Ask, S: iset<Key>, p: seq<R.Node>)
    requires SelfRecursive(w, a) && Fixpoint(w, S) && R.Path(GraphOf(w, a), p) && p[|p| - 1] < |a.objs|
    requires p[|p| - 1] in Base(w, a) || KeyAt(a, p[|p| - 1]) in S
    ensures p[0] < |a.objs| && KeyAt(a, p[0]) in S
    decreases |p|
  {
    if |p| > 1 {
      PathInFixpoint(w, a, S, p[1..]);
      assert p[1] in R.Succ(GraphOf(w, a), p[0]) && KeyAt(a, p[1]) in S;
    }
    RuleAt(w, a, p[0], S);
  }

  lemma ReachingIsGranted(w: World, a: Ask, i: nat, S: iset<Key>)
    requires SelfRecursive(w, a) && Fixpoint(w, S) && i < |a.objs| && R.Reaches(GraphOf(w, a), i, Base(w, a))
    ensures KeyAt(a, i) in S
  {
    var p :| R.PathInto(GraphOf(w, a), i, Base(w, a), p);
    PathInFixpoint(w, a, S, p);
  }

  ghost predicate Spared(w: World, a: Ask, k: Key) {
    forall i :: 0 <= i < |a.objs| && k == KeyAt(a, i) ==> R.Reaches(GraphOf(w, a), i, Base(w, a))
  }

  lemma GrantedIsReaching(w: World, a: Ask, i: nat)
    requires SelfRecursive(w, a) && i < |a.objs| && KeyAt(a, i) in Granted(w)
    ensures R.Reaches(GraphOf(w, a), i, Base(w, a))
  {
    var S := iset k | Spared(w, a, k);
    forall k | Rule(w, k, S)
      ensures k in S
    {
      forall x | 0 <= x < |a.objs| && k == KeyAt(a, x)
        ensures R.Reaches(GraphOf(w, a), x, Base(w, a))
      {
        RuleAt(w, a, x, S);
        R.ReachesIsLeastSolution(GraphOf(w, a), Base(w, a), x);
        if j :| j in R.Succ(GraphOf(w, a), x) && KeyAt(a, j) in S {
          assert Spared(w, a, KeyAt(a, j));
        }
      }
    }
    MixNowhere(NOWHERE, S);
    assert Absorbs(w, NOWHERE, {}, S);
    assert KeyAt(a, i) in S;
  }

  /** Granted is directly held, or reached from an object that an assigned userset leads to. */
  lemma GrantedIffReaches(w: World, a: Ask, i: nat)
    requires SelfRecursive(w, a) && Positive(w) && i < |a.objs|
    ensures KeyAt(a, i) in Granted(w) <==>
              i in Base(w, a) || R.SomeReaches(GraphOf(w, a), R.Succ(GraphOf(w, a), i), Base(w, a))
  {
    GrantedIsLeastFixpoint(w);
    if R.Reaches(GraphOf(w, a), i, Base(w, a)) {
      ReachingIsGranted(w, a, i, Granted(w));
    }
    if KeyAt(a, i) in Granted(w) {
      GrantedIsReaching(w, a, i);
    }
    R.ReachesIsLeastSolution(GraphOf(w, a), Base(w, a), i);
  }

  /**
   The v1 resolver on the object's first successors and the objects that hold directly. The caller has
   checked the object itself; a yes is granted, and a no leaves only what the object holds directly.
   */
  method CheckLevelByLevel(w: World, a: Ask, i: nat, reliable: bool, objectMsgs: seq<R.Msg>, userMsgs: seq<R.Msg>,
                           depth: nat, maxDepth: nat)
    returns (r: R.Outcome)
    requires SelfRecursive(w, a) && Positive(w) && i < |a.objs|
    requires R.Items(objectMsgs) == R.Succ(GraphOf(w, a), i) && R.Items(userMsgs) == Base(w, a)
    ensures r == R.Answer(true) ==> KeyAt(a, i) in Granted(w)
    ensures r == R.Answer(false) ==> (KeyAt(a, i) in Granted(w) <==> HoldsDirectly(w, KeyAt(a, i)))
  {
    GrantedIffReaches(w, a, i);
    r := RecursiveV1.RecursiveFastPath(GraphOf(w, a), reliable, objectMsgs, userMsgs, depth, maxDepth);
  }

  /** The v2 resolver on a store whose accepted tuples are those of the relation. */
  method CheckWorkSharing(w: World, a: Ask, i: nat, tuples: map<R.Node, set<WorkSharing.Edge>>,
                          left: seq<WorkSharingResolver.LeftMsg>, right: seq<R.Msg>, reliable: bool, limit: nat)
    returns (r: R.Outcome)
    requires SelfRecursive(w, a) && Positive(w) && i < |a.objs|
    requires R.Items(right) == R.Succ(GraphOf(w, a), i) && WorkSharingResolver.LeftItems(left) == Base(w, a)
    requires WorkSharing.Accepted(WorkSharing.Data(tuples, R.Items(right))) == GraphOf(w, a)
    ensures r == R.Answer(true) ==> KeyAt(a, i) in Granted(w)
    ensures r == R.Answer(false) && WorkSharingExact.Safe(WorkSharing.Data(tuples, R.Items(right))) ==>
              (KeyAt(a, i) in Granted(w) <==> HoldsDirectly(w, KeyAt(a, i)))
  {
    GrantedIffReaches(w, a, i);
    r := WorkSharingResolver.Execute(tuples, left, right, reliable, limit);
  }
}
