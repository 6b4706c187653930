/**
 "Base but not rel", where the base is assigned directly and `rel` refers to itself. The default strategy
 evaluates `rel` key by key, and an exclusion whose subtracted operand is cyclic says no. So it wrongly denies
 a user who holds the base and not `rel`, exactly when a cycle of usersets or parents lies ahead of the object.
 */
module ExclusionCycles {
  import opened Reducers
  import opened Rules
  import opened Evaluator
  import opened Stratified
  import opened RecursiveMeaning
  import R = Reachability
  import RecursiveV1

  // ---------------------------------------------------------------- chains and cycles

  ghost predicate LeadsTo(g: R.Graph, p: seq<R.Node>, x: R.Node, y: R.Node) {
    R.Path(g, p) && |p| > 1 && p[0] == x && p[|p| - 1] == y
  }

  /** A chain of at least one step leads from `x` to `y`. */
  ghost predicate Ahead(g: R.Graph, x: R.Node, y: R.Node) {
    exists p :: LeadsTo(g, p, x, y)
  }

  /** A cycle lies on the object or ahead of it. */
  ghost predicate CycleAhead(g: R.Graph, i: R.Node) {
    exists x: R.Node :: (x == i || Ahead(g, i, x)) && Ahead(g, x, x)
  }

  lemma StepAhead(g: R.Graph, x: R.Node, y: R.Node)
    requires y in R.Succ(g, x)
    ensures Ahead(g, x, y) && forall v :: Ahead(g, y, v) ==> Ahead(g, x, v)
  {
    assert [x, y][1..] == [y];
    assert LeadsTo(g, [x, y], x, y);
    forall v | Ahead(g, y, v)
      ensures Ahead(g, x, v)
    {
      var p :| LeadsTo(g, p, y, v);
      assert ([x] + p)[1..] == p;
      assert LeadsTo(g, [x] + p, x, v);
    }
  }

  lemma AheadStep(g: R.Graph, i: R.Node, x: R.Node, y: R.Node)
    requires (x == i || Ahead(g, i, x)) && y in R.Succ(g, x)
    ensures Ahead(g, i, y)
  {
    StepAhead(g, x, y);
    if x != i {
      var p :| LeadsTo(g, p, i, x);
      R.PathGrows(g, p, y);
      assert LeadsTo(g, p + [y], i, y);
    }
  }

  /** The next object on a cycle is on a cycle. */
  lemma CycleGoesOn(g: R.Graph, x: R.Node) returns (y: R.Node)
    requires Ahead(g, x, x)
    ensures y in R.Succ(g, x) && Ahead(g, y, y)
  {
    var p :| LeadsTo(g, p, x, x);
    y := p[1];
    R.PathGrows(g, p[1..], y);
    assert LeadsTo(g, p[1..] + [y], y, y);
  }

  /** How many objects lie ahead. */
  ghost function Rank(g: R.Graph, n: nat, x: R.Node): nat {
    |set y: nat | y < n && Ahead(g, x, y)|
  }

  lemma RankFalls(g: R.Graph, n: nat, x: R.Node, y: R.Node)
    requires y in R.Succ(g, x) && y < n && !Ahead(g, y, y)
    ensures Rank(g, n, y) < Rank(g, n, x)
  {
    StepAhead(g, x, y);
    var below, above := set v: nat | v < n && Ahead(g, y, v), set v: nat | v < n && Ahead(g, x, v);
    assert below <= above && y in above && y !in below;
    assert above == below + (above - below) && |above| == |below| + |above - below| && y in above - below;
  }

  // ---------------------------------------------------------------- the three relations

  /** The relation `guest` is "`base` but not the relation of `a`", and `base` is assigned directly. */
  ghost predicate Excludes(w: World, a: Ask, base: string, guest: string) {
    && SelfRecursive(w, a)
    && (a.typ, guest) in w.rewrites && w.rewrites[(a.typ, guest)] == Difference(Computed(base), Computed(a.relation))
    && (a.typ, base) in w.rewrites && w.rewrites[(a.typ, base)] == This && w.usersetTypes(a.typ, base) == {}
  }

  function On(a: Ask, relation: string, i: nat): Key
    requires i < |a.objs|
  {
    Key(a.objs[i], relation, a.user)
  }

  lemma GuestRule(w: World, a: Ask, base: string, guest: string, i: nat, S: iset<Key>)
    requires Excludes(w, a, base, guest) && i < |a.objs| && Evaluated(w, On(a, guest, i))
    ensures Rule(w, On(a, guest, i), S) <==> On(a, base, i) in S && KeyAt(a, i) !in S
  {
    var k := On(a, guest, i);
    assert a.objs[i] in a.objs;
    assert RewriteHolds(w, k, Computed(base), S) <==> On(a, base, i) in S;
    assert RewriteHolds(w, k, Computed(a.relation), S) <==> KeyAt(a, i) in S;
  }

  lemma BaseRule(w: World, a: Ask, base: string, guest: string, i: nat, S: iset<Key>)
    requires Excludes(w, a, base, guest) && i < |a.objs|
    ensures Rule(w, On(a, base, i), S) <==> HoldsDirectly(w, On(a, base, i))
  {
    assert a.objs[i] in a.objs && forall t :: !UsersetTuple(w, On(a, base, i), t);
  }

  // ---------------------------------------------------------------- lookups

  lemma GuestAsks(w: World, a: Ask, base: string, guest: string, i: nat, j: Key)
    requires Excludes(w, a, base, guest) && i < |a.objs| && Asks(w, On(a, guest, i), j)
    ensures j == On(a, base, i) || j == KeyAt(a, i)
  {
    assert a.objs[i] in a.objs;
    var k := On(a, guest, i);
    assert LooksUp(w, k, Computed(base), j) || LooksUp(w, k, Computed(a.relation), j);
  }

  lemma BaseAsksNothing(w: World, a: Ask, base: string, guest: string, i: nat, j: Key)
    requires Excludes(w, a, base, guest) && i < |a.objs|
    ensures !Asks(w, On(a, base, i), j)
  {
    assert a.objs[i] in a.objs && forall t :: !UsersetTuple(w, On(a, base, i), t);
  }

  lemma AsksAt(w: World, a: Ask, i: nat, j: Key) returns (y: nat)
    requires SelfRecursive(w, a) && i < |a.objs| && Asks(w, KeyAt(a, i), j)
    ensures y < |a.objs| && y in R.Succ(GraphOf(w, a), i) && j == KeyAt(a, y)
  {
    var k := KeyAt(a, i);
    assert a.objs[i] in a.objs;
    match a.form
    case Usersets =>
      var t :| UsersetTuple(w, k, t) && j == UsersetKey(k, t);
      assert t.user.obj in a.objs && t == Tuple(k.obj, a.relation, User(t.user.obj, a.relation));
      y :| 0 <= y < |a.objs| && a.objs[y] == t.user.obj;
    case Parents(ts) =>
      var t := ParentAsked(w, a, k, j);
      y :| 0 <= y < |a.objs| && a.objs[y] == t.user.obj;
  }

  lemma ParentAsked(w: World, a: Ask, k: Key, j: Key) returns (t: Tuple)
    requires SelfRecursive(w, a) && a.form.Parents? && k.obj.typ == a.typ && k.relation == a.relation && Asks(w, k, j)
    ensures ParentTuple(w, k, a.form.tupleset, a.relation, t) && j == ParentKey(k, a.relation, t)
    ensures t.user.obj in a.objs
  {
    var cs := [This, TupleToUserset(a.form.tupleset, a.relation)];
    assert forall u :: !UsersetTuple(w, k, u);
    var i :| 0 <= i < |cs| && LooksUp(w, k, cs[i], j);
    assert cs[i] == TupleToUserset(a.form.tupleset, a.relation);
    t :| ParentTuple(w, k, a.form.tupleset, a.relation, t) && j == ParentKey(k, a.relation, t);
  }

  // ---------------------------------------------------------------- no cycle ahead

  ghost function RankOf(w: World, a: Ask, k: Key): nat {
    if exists x: nat :: x < |a.objs| && k == KeyAt(a, x) then
      var x: nat :| x < |a.objs| && k == KeyAt(a, x);
      Rank(GraphOf(w, a), |a.objs|, x)
    else
      0
  }

  lemma RankOfAt(w: World, a: Ask, x: nat)
    requires Listed(a) && x < |a.objs|
    ensures RankOf(w, a, KeyAt(a, x)) == Rank(GraphOf(w, a), |a.objs|, x)
  {
    forall y: nat | y < |a.objs| && KeyAt(a, x) == KeyAt(a, y)
      ensures y == x
    {
      assert a.objs[x] == a.objs[y];
    }
  }

  /** The object asked about, or one ahead of it. */
  ghost predicate Onward(w: World, a: Ask, i: nat, x: nat) {
    x < |a.objs| && (x == i || Ahead(GraphOf(w, a), i, x))
  }

  ghost predicate OnwardKey(w: World, a: Ask, i: nat, k: Key) {
    exists x :: Onward(w, a, i, x) && k == KeyAt(a, x)
  }

  /** What checking the guest relation can look up. */
  ghost function Lookups(w: World, a: Ask, base: string, guest: string, i: nat): iset<Key>
    requires i < |a.objs|
  {
    iset k | k in {On(a, guest, i), On(a, base, i)} || OnwardKey(w, a, i, k)
  }

  ghost function ZoneOf(w: World, a: Ask, base: string, guest: string, i: nat, model: iset<Key>): Zone
    requires i < |a.objs|
  {
    var top, g := On(a, guest, i), Rank(GraphOf(w, a), |a.objs|, i);
    Zone(Lookups(w, a, base, guest, i), k => if k == top then g + 1 else RankOf(w, a, k), model)
  }

  lemma OnwardFalls(w: World, a: Ask, i: nat, x: nat, j: Key)
    requires SelfRecursive(w, a) && i < |a.objs| && !CycleAhead(GraphOf(w, a), i)
    requires Onward(w, a, i, x) && Asks(w, KeyAt(a, x), j)
    ensures OnwardKey(w, a, i, j) && RankOf(w, a, j) < RankOf(w, a, KeyAt(a, x))
  {
    var g := GraphOf(w, a);
    var y := AsksAt(w, a, x, j);
    AheadStep(g, i, x, y);
    assert Onward(w, a, i, y) && !Ahead(g, y, y);
    RankFalls(g, |a.objs|, x, y);
    RankOfAt(w, a, x);
    RankOfAt(w, a, y);
  }

  lemma GuestFalls(w: World, a: Ask, base: string, guest: string, i: nat, j: Key)
    requires Excludes(w, a, base, guest) && i < |a.objs| && Asks(w, On(a, guest, i), j)
    ensures j in Lookups(w, a, base, guest, i) && j != On(a, guest, i)
    ensures RankOf(w, a, j) <= Rank(GraphOf(w, a), |a.objs|, i)
  {
    GuestAsks(w, a, base, guest, i, j);
    RankOfAt(w, a, i);
    assert Onward(w, a, i, i);
    if j != KeyAt(a, i) {
      forall x: nat | x < |a.objs|
        ensures j != KeyAt(a, x)
      {
        assert a.objs[x] == a.objs[i] ==> x == i;
      }
    }
  }

  lemma NoCycleFalls(w: World, a: Ask, base: string, guest: string, i: nat, model: iset<Key>)
    requires Excludes(w, a, base, guest) && i < |a.objs| && !CycleAhead(GraphOf(w, a), i)
    ensures Falling(w, ZoneOf(w, a, base, guest, i, model))
  {
    var z := ZoneOf(w, a, base, guest, i, model);
    forall k, j | k in z.keys && Asks(w, k, j)
      ensures j in z.keys && z.rank(j) < z.rank(k)
    {
      if k == On(a, guest, i) {
        GuestFalls(w, a, base, guest, i, j);
      } else if k == On(a, base, i) {
        BaseAsksNothing(w, a, base, guest, i, j);
      } else {
        var x :| Onward(w, a, i, x) && k == KeyAt(a, x);
        OnwardFalls(w, a, i, x, j);
      }
    }
  }

  // ---------------------------------------------------------------- a cycle ahead

  /** The key of the relation on an object that lies on a cycle. */
  ghost predicate CycleKey(w: World, a: Ask, k: Key) {
    exists x: nat :: x < |a.objs| && Ahead(GraphOf(w, a), x, x) && k == KeyAt(a, x)
  }

  ghost function OnCycles(w: World, a: Ask): iset<Key> {
    iset k | CycleKey(w, a, k)
  }

  /** The relation may as well be granted all along every cycle. */
  lemma CyclesSupportThemselves(w: World, lv: Levels, a: Ask)
    requires Layers(w, lv) && SelfRecursive(w, a)
    ensures Fixpoint(w, PerfectWith(w, lv, OnCycles(w, a))) && OnCycles(w, a) <= PerfectWith(w, lv, OnCycles(w, a))
  {
    var X, g := OnCycles(w, a), GraphOf(w, a);
    var P := PerfectWith(w, lv, X);
    forall k | k in X
      ensures k in P
    {
      PerfectAbsorbs(w, lv, X, k);
    }
    forall k | k in X
      ensures Rule(w, k, P)
    {
      var x: nat :| x < |a.objs| && Ahead(g, x, x) && k == KeyAt(a, x);
      var y := CycleGoesOn(g, x);
      assert KeyAt(a, y) in X;
      RuleAt(w, a, x, P);
    }
    SupportedIsFixpoint(w, lv, X);
  }

  lemma AheadInFixpoint(w: World, a: Ask, i: nat, S: iset<Key>)
    requires SelfRecursive(w, a) && i < |a.objs| && Fixpoint(w, S) && OnCycles(w, a) <= S
    requires CycleAhead(GraphOf(w, a), i)
    ensures KeyAt(a, i) in S
  {
    var g := GraphOf(w, a);
    var x: R.Node :| (x == i || Ahead(g, i, x)) && Ahead(g, x, x);
    var y := CycleGoesOn(g, x);
    assert x < |a.objs| && KeyAt(a, x) in OnCycles(w, a);
    if x != i {
      var p :| LeadsTo(g, p, i, x);
      PathInFixpoint(w, a, S, p);
    }
  }

  // ---------------------------------------------------------------- the perfect model

  /** The perfect model below the relation's level; on it, at most what reaches the base. */
  ghost function Reaching(w: World, lv: Levels, a: Ask): iset<Key> {
    var P := Perfect(w, lv);
    iset k | (Level(lv, k) < LevelOf(lv, a.typ, a.relation) ==> k in P) && Spared(w, a, k)
  }

  lemma ReachingAgrees(w: World, lv: Levels, a: Ask)
    requires SelfRecursive(w, a)
    ensures AgreeBelow(lv, LevelOf(lv, a.typ, a.relation), Perfect(w, lv), Reaching(w, lv, a))
  {
    forall k | Level(lv, k) < LevelOf(lv, a.typ, a.relation)
      ensures Spared(w, a, k)
    {
      forall x | 0 <= x < |a.objs|
        ensures k != KeyAt(a, x)
      {
        assert a.objs[x] in a.objs;
      }
    }
  }

  lemma ReachingCloses(w: World, lv: Levels, a: Ask, n: nat, low: iset<Key>)
    requires SelfRecursive(w, a) && n == LevelOf(lv, a.typ, a.relation) && AgreeBelow(lv, n, low, Perfect(w, lv))
    ensures Closing(w, lv, iset{}, n, low, Reaching(w, lv, a))
  {
    var S := Reaching(w, lv, a);
    ReachingAgrees(w, lv, a);
    forall k | Level(lv, k) == n && RuleOr(w, iset{}, k, S)
      ensures k in S
    {
      forall x | 0 <= x < |a.objs| && k == KeyAt(a, x)
        ensures R.Reaches(GraphOf(w, a), x, Base(w, a))
      {
        RuleSpares(w, a, x, S);
      }
    }
  }

  lemma PerfectIsReaching(w: World, lv: Levels, a: Ask, i: nat)
    requires SelfRecursive(w, a) && i < |a.objs| && KeyAt(a, i) in Perfect(w, lv)
    ensures R.Reaches(GraphOf(w, a), i, Base(w, a))
  {
    var n := LevelOf(lv, a.typ, a.relation);
    assert a.objs[i] in a.objs && Level(lv, KeyAt(a, i)) == n;
    PerfectBelow(w, lv, iset{}, n);
    ReachingCloses(w, lv, a, n, Upto(w, lv, iset{}, n));
    PerfectAtLevel(w, lv, iset{}, KeyAt(a, i));
    assert KeyAt(a, i) in Reaching(w, lv, a);
  }

  lemma RuleSpares(w: World, a: Ask, x: nat, S: iset<Key>)
    requires SelfRecursive(w, a) && x < |a.objs| && Rule(w, KeyAt(a, x), S)
    requires forall k :: k in S ==> Spared(w, a, k)
    ensures R.Reaches(GraphOf(w, a), x, Base(w, a))
  {
    RuleAt(w, a, x, S);
    R.ReachesIsLeastSolution(GraphOf(w, a), Base(w, a), x);
    if j :| j in R.Succ(GraphOf(w, a), x) && KeyAt(a, j) in S {
      assert Spared(w, a, KeyAt(a, j));
    }
  }

  lemma PerfectIffReaches(w: World, lv: Levels, a: Ask, i: nat)
    requires Layers(w, lv) && SelfRecursive(w, a) && i < |a.objs|
    ensures KeyAt(a, i) in Perfect(w, lv) <==> R.Reaches(GraphOf(w, a), i, Base(w, a))
  {
    PerfectIsFixpoint(w, lv);
    if R.Reaches(GraphOf(w, a), i, Base(w, a)) {
      ReachingIsGranted(w, a, i, Perfect(w, lv));
    }
    if KeyAt(a, i) in Perfect(w, lv) {
      PerfectIsReaching(w, lv, a, i);
    }
  }

  // ---------------------------------------------------------------- the answer

  /**
   The user holds the base on the object and not the relation, the guest relation is evaluated at all, and a
   cycle lies on the object or ahead of it.
   */
  ghost predicate Misled(w: World, a: Ask, base: string, guest: string, i: nat)
    requires i < |a.objs|
  {
    && Evaluated(w, On(a, guest, i)) && HoldsDirectly(w, On(a, base, i))
    && !R.Reaches(GraphOf(w, a), i, Base(w, a)) && CycleAhead(GraphOf(w, a), i)
  }

  /** In every fixpoint, the guests are those who hold the base and not the relation. */
  lemma GuestIn(w: World, a: Ask, base: string, guest: string, i: nat, S: iset<Key>)
    requires Excludes(w, a, base, guest) && i < |a.objs| && Fixpoint(w, S) && Evaluated(w, On(a, guest, i))
    ensures On(a, guest, i) in S <==> HoldsDirectly(w, On(a, base, i)) && KeyAt(a, i) !in S
  {
    GuestRule(w, a, base, guest, i, S);
    BaseRule(w, a, base, guest, i, S);
    assert Rule(w, On(a, base, i), S) <==> On(a, base, i) in S;
  }

  /** A misled check has two fixpoints to choose from. */
  lemma MisledIsAmbiguous(w: World, lv: Levels, a: Ask, base: string, guest: string, i: nat) returns (S: iset<Key>)
    requires Layers(w, lv) && Excludes(w, a, base, guest) && i < |a.objs| && Misled(w, a, base, guest, i)
    ensures Fixpoint(w, S) && On(a, guest, i) !in S
    ensures Fixpoint(w, Perfect(w, lv)) && On(a, guest, i) in Perfect(w, lv)
  {
    S := PerfectWith(w, lv, OnCycles(w, a));
    CyclesSupportThemselves(w, lv, a);
    AheadInFixpoint(w, a, i, S);
    GuestIn(w, a, base, guest, i, S);
    PerfectIsFixpoint(w, lv);
    PerfectIffReaches(w, lv, a, i);
    GuestIn(w, a, base, guest, i, Perfect(w, lv));
  }

  /** Whatever is not misled and has no falling zone is no guest. */
  lemma NotMisled(w: World, lv: Levels, a: Ask, base: string, guest: string, i: nat) returns (z: Zone)
    requires Layers(w, lv) && Excludes(w, a, base, guest) && i < |a.objs| && !Misled(w, a, base, guest, i)
    ensures (Falling(w, z) && On(a, guest, i) in z.keys) || On(a, guest, i) !in Perfect(w, lv)
  {
    var k := On(a, guest, i);
    if !Evaluated(w, k) {
      z := Zone(iset{k}, _ => 0, iset{});
    } else if !CycleAhead(GraphOf(w, a), i) {
      z := ZoneOf(w, a, base, guest, i, iset{});
      NoCycleFalls(w, a, base, guest, i, iset{});
    } else {
      z := NOWHERE;
      PerfectIsFixpoint(w, lv);
      PerfectIffReaches(w, lv, a, i);
      GuestIn(w, a, base, guest, i, Perfect(w, lv));
    }
  }

  /** The answer differs from the perfect model exactly when the check is misled. */
  method CheckExclusion(c: Checker, k: Key, others: seq<map<Key, Outcome>>, ghost lv: Levels, ghost a: Ask,
                        ghost base: string, ghost guest: string, ghost i: nat)
    returns (r: Outcome)
    requires c.Valid() && Layers(c.w, lv) && Excludes(c.w, a, base, guest)
    requires i < |a.objs| && k == On(a, guest, i)
    requires forall m :: m in others ==> CacheRight(c.w, m)
    modifies c`cache
    ensures c.Valid()
    ensures r.Resp? ==> ((r.allowed <==> k in Perfect(c.w, lv)) <==> !Misled(c.w, a, base, guest, i))
    ensures r.Resp? && Misled(c.w, a, base, guest, i) ==> r == Resp(false, true)
    ensures Sturdy(c.w) && Defined(c.w, k.obj.typ, guest) && |Universe(c.w, k.obj, k.user)| < c.w.maxDepth ==> r.Resp?
  {
    ghost var z := NOWHERE;
    PerfectIsFixpoint(c.w, lv);
    if Misled(c.w, a, base, guest, i) {
      ghost var S := MisledIsAmbiguous(c.w, lv, a, base, guest, i);
    } else {
      z := NotMisled(c.w, lv, a, base, guest, i);
    }
    r := c.CheckAgainst(z, k, others);
  }

  /** A whole misled check, when nothing else can go wrong: the user is a guest, and the answer is no. */
  method DenyMisled(w: World, caching: bool, k: Key, ghost lv: Levels, ghost a: Ask, ghost base: string,
                    ghost guest: string, ghost i: nat)
    returns (r: Outcome)
    requires Layers(w, lv) && Excludes(w, a, base, guest)
    requires i < |a.objs| && k == On(a, guest, i) && Misled(w, a, base, guest, i)
    requires Sturdy(w) && |Universe(w, k.obj, k.user)| < w.maxDepth
    ensures r == Resp(false, true) && k in Perfect(w, lv)
  {
    var c := new Checker(w, caching);
    r := CheckExclusion(c, k, [], lv, a, base, guest, i);
  }

  /**
   The recursive strategy for the same relation is never misled: on every layered model, cycles or not, a yes is
   in the perfect model, and a no leaves only what the object holds directly.
   */
  method CheckByReaching(w: World, ghost lv: Levels, a: Ask, i: nat, reliable: bool, objectMsgs: seq<R.Msg>,
                         userMsgs: seq<R.Msg>, depth: nat, maxDepth: nat)
    returns (r: R.Outcome)
    requires Layers(w, lv) && SelfRecursive(w, a) && i < |a.objs|
    requires R.Items(objectMsgs) == R.Succ(GraphOf(w, a), i) && R.Items(userMsgs) == Base(w, a)
    ensures r == R.Answer(true) ==> KeyAt(a, i) in Perfect(w, lv)
    ensures r == R.Answer(false) ==> (KeyAt(a, i) in Perfect(w, lv) <==> HoldsDirectly(w, KeyAt(a, i)))
  {
    PerfectIffReaches(w, lv, a, i);
    R.ReachesIsLeastSolution(GraphOf(w, a), Base(w, a), i);
    r := RecursiveV1.RecursiveFastPath(GraphOf(w, a), reliable, objectMsgs, userMsgs, depth, maxDepth);
  }
}
