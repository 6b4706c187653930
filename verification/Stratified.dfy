/**
 Models with exclusion. When no relation subtracts what depends on it, the rules have a perfect model: the
 relations are settled level by level, each level as its least fixpoint over the levels below. What the
 evaluator answers is compared with that model.
 */
module Stratified {
  import opened Reducers
  import opened Rules
  import opened Evaluator

  /** A level for every relation of every type; a relation that is not listed has level 0. */
  type Levels = map<(string, string), nat>

  function LevelOf(lv: Levels, typ: string, relation: string): nat {
    if (typ, relation) in lv then lv[(typ, relation)] else 0
  }

  function Level(lv: Levels, k: Key): nat {
    LevelOf(lv, k.obj.typ, k.relation)
  }

  /** Everything that the rewrite looks up is below `n`, or at it at most. */
  predicate Below(w: World, lv: Levels, typ: string, relation: string, rw: Rewrite, n: nat)
    decreases rw
  {
    match rw
    case This => forall u :: u in w.usersetTypes(typ, relation) ==> LevelOf(lv, u.0, u.1) < n
    case Computed(r) => LevelOf(lv, typ, r) < n
    case TupleToUserset(ts, cr) =>
      forall t :: t in w.tuples && t.obj.typ == typ && t.relation == ts ==> LevelOf(lv, t.user.obj.typ, cr) < n
    case Union(cs) => forall c :: c in cs ==> Below(w, lv, typ, relation, c, n)
    case Intersection(cs) => forall c :: c in cs ==> Below(w, lv, typ, relation, c, n)
    case Difference(b, s) => Below(w, lv, typ, relation, b, n) && Below(w, lv, typ, relation, s, n)
  }

  /** The rewrite looks up nothing above `n`, and what it subtracts is below `n`. */
  predicate Layered(w: World, lv: Levels, typ: string, relation: string, rw: Rewrite, n: nat)
    decreases rw
  {
    match rw
    case Union(cs) => forall c :: c in cs ==> Layered(w, lv, typ, relation, c, n)
    case Intersection(cs) => forall c :: c in cs ==> Layered(w, lv, typ, relation, c, n)
    case Difference(b, s) => Layered(w, lv, typ, relation, b, n) && Below(w, lv, typ, relation, s, n)
    case _ => Below(w, lv, typ, relation, rw, n + 1)
  }

  predicate Layers(w: World, lv: Levels) {
    forall tr :: tr in w.rewrites ==> Layered(w, lv, tr.0, tr.1, w.rewrites[tr], LevelOf(lv, tr.0, tr.1))
  }

  // ---------------------------------------------------------------- what a level depends on

  ghost predicate AgreeBelow(lv: Levels, n: nat, S: iset<Key>, S': iset<Key>) {
    forall k :: Level(lv, k) < n ==> (k in S <==> k in S')
  }

  ghost predicate IncludedAt(lv: Levels, n: nat, S: iset<Key>, S': iset<Key>) {
    forall k :: Level(lv, k) == n && k in S ==> k in S'
  }

  lemma {:induction false} BelowDecides(w: World, lv: Levels, k: Key, rw: Rewrite, n: nat, S: iset<Key>, S': iset<Key>)
    requires Below(w, lv, k.obj.typ, k.relation, rw, n) && AgreeBelow(lv, n, S, S')
    ensures RewriteHolds(w, k, rw, S) <==> RewriteHolds(w, k, rw, S')
    decreases rw
  {
    match rw
    case This =>
      assert forall t :: UsersetTuple(w, k, t) ==> (UsersetKey(k, t) in S <==> UsersetKey(k, t) in S');
    case Computed(r) =>
    case TupleToUserset(ts, cr) =>
      assert forall t :: ParentTuple(w, k, ts, cr, t) ==> (ParentKey(k, cr, t) in S <==> ParentKey(k, cr, t) in S');
    case Union(cs) =>
      forall i | 0 <= i < |cs|
        ensures RewriteHolds(w, k, cs[i], S) <==> RewriteHolds(w, k, cs[i], S')
      {
        BelowDecides(w, lv, k, cs[i], n, S, S');
      }
    case Intersection(cs) =>
      forall i | 0 <= i < |cs|
        ensures RewriteHolds(w, k, cs[i], S) <==> RewriteHolds(w, k, cs[i], S')
      {
        BelowDecides(w, lv, k, cs[i], n, S, S');
      }
    case Difference(b, s) =>
      BelowDecides(w, lv, k, b, n, S, S');
      BelowDecides(w, lv, k, s, n, S, S');
  }

  /** More at a level never takes a grant at that level away. */
  lemma {:induction false} LayerMonotone(w: World, lv: Levels, k: Key, rw: Rewrite, n: nat, S: iset<Key>, S': iset<Key>)
    requires Layered(w, lv, k.obj.typ, k.relation, rw, n) && AgreeBelow(lv, n, S, S') && IncludedAt(lv, n, S, S')
    requires RewriteHolds(w, k, rw, S)
    ensures RewriteHolds(w, k, rw, S')
    decreases rw
  {
    match rw
    case This =>
      assert forall t :: UsersetTuple(w, k, t) ==> Level(lv, UsersetKey(k, t)) <= n;
    case Computed(r) =>
      assert Level(lv, Key(k.obj, r, k.user)) <= n;
    case TupleToUserset(ts, cr) =>
      assert forall t :: ParentTuple(w, k, ts, cr, t) ==> Level(lv, ParentKey(k, cr, t)) <= n;
    case Union(cs) =>
      var i :| 0 <= i < |cs| && RewriteHolds(w, k, cs[i], S);
      LayerMonotone(w, lv, k, cs[i], n, S, S');
    case Intersection(cs) =>
      forall i | 0 <= i < |cs|
        ensures RewriteHolds(w, k, cs[i], S')
      {
        LayerMonotone(w, lv, k, cs[i], n, S, S');
      }
    case Difference(b, s) =>
      LayerMonotone(w, lv, k, b, n, S, S');
      BelowDecides(w, lv, k, s, n, S, S');
  }

  lemma RuleAtLevel(w: World, lv: Levels, k: Key, S: iset<Key>, S': iset<Key>)
    requires Layers(w, lv) && Rule(w, k, S)
    requires AgreeBelow(lv, Level(lv, k), S, S') && IncludedAt(lv, Level(lv, k), S, S')
    ensures Rule(w, k, S')
  {
    if !SelfDefining(k) {
      LayerMonotone(w, lv, k, w.rewrites[(k.obj.typ, k.relation)], Level(lv, k), S, S');
    }
  }

  // ---------------------------------------------------------------- the perfect model

  /** The rules, and some keys that are granted in any case. */
  ghost predicate RuleOr(w: World, X: iset<Key>, k: Key, S: iset<Key>) {
    k in X || Rule(w, k, S)
  }

  /** `S` is `low` below the level, and absorbs what is granted at it. */
  ghost predicate Closing(w: World, lv: Levels, X: iset<Key>, n: nat, low: iset<Key>, S: iset<Key>) {
    AgreeBelow(lv, n, low, S) && forall k :: Level(lv, k) == n && RuleOr(w, X, k, S) ==> k in S
  }

  ghost predicate InEveryClosing(w: World, lv: Levels, X: iset<Key>, n: nat, low: iset<Key>, k: Key) {
    forall S :: Closing(w, lv, X, n, low, S) ==> k in S
  }

  /** The model's keys below a level. */
  ghost function Upto(w: World, lv: Levels, X: iset<Key>, n: nat): iset<Key> {
    if n == 0 then iset{}
    else
      var low := Upto(w, lv, X, n - 1);
      low + iset k | Level(lv, k) == n - 1 && InEveryClosing(w, lv, X, n - 1, low, k)
  }

  /** Every level is least over the levels below, with the keys of `X` granted in any case. */
  ghost function PerfectWith(w: World, lv: Levels, X: iset<Key>): iset<Key> {
    iset k | k in Upto(w, lv, X, Level(lv, k) + 1)
  }

  ghost function Perfect(w: World, lv: Levels): iset<Key> {
    PerfectWith(w, lv, iset{})
  }

  lemma {:induction false} UptoIsPerfect(w: World, lv: Levels, X: iset<Key>, n: nat, k: Key)
    ensures k in Upto(w, lv, X, n) <==> Level(lv, k) < n && k in PerfectWith(w, lv, X)
  {
    if n > 0 {
      UptoIsPerfect(w, lv, X, n - 1, k);
    }
  }

  lemma PerfectBelow(w: World, lv: Levels, X: iset<Key>, n: nat)
    ensures AgreeBelow(lv, n, Upto(w, lv, X, n), PerfectWith(w, lv, X))
  {
    forall j
      ensures j in Upto(w, lv, X, n) <==> Level(lv, j) < n && j in PerfectWith(w, lv, X)
    {
      UptoIsPerfect(w, lv, X, n, j);
    }
  }

  lemma PerfectAtLevel(w: World, lv: Levels, X: iset<Key>, k: Key)
    ensures k in PerfectWith(w, lv, X) <==> InEveryClosing(w, lv, X, Level(lv, k), Upto(w, lv, X, Level(lv, k)), k)
  {
    UptoIsPerfect(w, lv, X, Level(lv, k), k);
  }

  lemma PerfectAbsorbs(w: World, lv: Levels, X: iset<Key>, k: Key)
    requires Layers(w, lv) && RuleOr(w, X, k, PerfectWith(w, lv, X))
    ensures k in PerfectWith(w, lv, X)
  {
    var n, P := Level(lv, k), PerfectWith(w, lv, X);
    PerfectAtLevel(w, lv, X, k);
    PerfectBelow(w, lv, X, n);
    forall S | Closing(w, lv, X, n, Upto(w, lv, X, n), S)
      ensures k in S
    {
      forall j | Level(lv, j) == n && j in P
        ensures j in S
      {
        PerfectAtLevel(w, lv, X, j);
      }
      if k !in X {
        RuleAtLevel(w, lv, k, P, S);
      }
    }
  }

  lemma PerfectIsSupported(w: World, lv: Levels, X: iset<Key>, k: Key)
    requires Layers(w, lv) && k in PerfectWith(w, lv, X)
    ensures RuleOr(w, X, k, PerfectWith(w, lv, X))
  {
    var n, P := Level(lv, k), PerfectWith(w, lv, X);
    var S := iset j | j in P && (Level(lv, j) == n ==> RuleOr(w, X, j, P));
    PerfectAtLevel(w, lv, X, k);
    PerfectBelow(w, lv, X, n);
    forall j | Level(lv, j) == n && RuleOr(w, X, j, S)
      ensures j in S
    {
      if j !in X {
        RuleAtLevel(w, lv, j, S, P);
      }
      PerfectAbsorbs(w, lv, X, j);
    }
    assert Closing(w, lv, X, n, Upto(w, lv, X, n), S);
  }

  /** If the rules support what was granted in any case, the model is a fixpoint of the rules. */
  lemma SupportedIsFixpoint(w: World, lv: Levels, X: iset<Key>)
    requires Layers(w, lv) && forall k :: k in X ==> Rule(w, k, PerfectWith(w, lv, X))
    ensures Fixpoint(w, PerfectWith(w, lv, X))
  {
    var P := PerfectWith(w, lv, X);
    forall k
      ensures Rule(w, k, P) ==> k in P
      ensures k in P ==> Rule(w, k, P)
    {
      if RuleOr(w, X, k, P) {
        PerfectAbsorbs(w, lv, X, k);
      }
      if k in P {
        PerfectIsSupported(w, lv, X, k);
      }
    }
  }

  /** The perfect model of a layered world is a fixpoint of the rules. */
  lemma PerfectIsFixpoint(w: World, lv: Levels)
    requires Layers(w, lv)
    ensures Fixpoint(w, Perfect(w, lv))
  {
    SupportedIsFixpoint(w, lv, iset{});
  }

  // ---------------------------------------------------------------- the evaluator against it

  /** In a zone, only the zone decides. */
  lemma ZoneDecides(w: World, z: Zone, k: Key, S: iset<Key>)
    requires Falling(w, z) && Fixpoint(w, z.model) && k in z.keys && Rule(w, k, Mix(z, S))
    ensures k in z.model
  {
    if !SelfDefining(k) {
      var rw := w.rewrites[(k.obj.typ, k.relation)];
      assert forall j :: LooksUp(w, k, rw, j) ==> Asks(w, k, j);
      LookupsDecide(w, k, rw, Mix(z, S), z.model);
    }
    assert Rule(w, k, z.model);
  }

  lemma {:induction false} PerfectIsDerivable(w: World, lv: Levels, z: Zone, k: Key)
    requires Layers(w, lv) && Falling(w, z) && AllFit(w, z) && z.model == Perfect(w, lv) && k in Perfect(w, lv)
    ensures k in Mix(z, Derivable(w, z, {}))
    decreases Level(lv, k)
  {
    var n, X, D := Level(lv, k), iset{}, Derivable(w, z, {});
    PerfectIsFixpoint(w, lv);
    DerivableIsInFixpoint(w, z, {});
    DerivableAbsorbs(w, z, {});
    PerfectBelow(w, lv, X, n);
    forall j | Level(lv, j) < n && j in Perfect(w, lv)
      ensures j in Mix(z, D)
    {
      PerfectIsDerivable(w, lv, z, j);
    }
    forall j | Level(lv, j) == n && RuleOr(w, X, j, Mix(z, D))
      ensures j in Mix(z, D)
    {
      if j in z.keys {
        ZoneDecides(w, z, j, D);
      }
    }
    assert Closing(w, lv, X, n, Upto(w, lv, X, n), Mix(z, D));
    PerfectAtLevel(w, lv, X, k);
  }

  /** A layered world is settled by a zone in which all lookups of subtracted operands lie. */
  lemma LayeredIsSettled(w: World, lv: Levels, z: Zone)
    requires Layers(w, lv) && Falling(w, z) && AllFit(w, z) && z.model == Perfect(w, lv)
    ensures Settled(w, z)
  {
    PerfectIsFixpoint(w, lv);
    forall k | k in z.model && k !in z.keys
      ensures k in Derivable(w, z, {})
    {
      PerfectIsDerivable(w, lv, z, k);
    }
  }

  /**
   On a layered world in which a rank falls along every lookup below a subtracted operand, the answer is
   membership in the perfect model. On any layered world a yes and a non-cyclic no agree with it.
   */
  method CheckLayered(c: Checker, lv: Levels, ghost below: iset<Key>, ghost rank: Key -> nat, k: Key,
                      others: seq<map<Key, Outcome>>)
    returns (r: Outcome)
    requires c.Valid() && Layers(c.w, lv)
    requires forall m :: m in others ==> CacheRight(c.w, m)
    modifies c`cache
    ensures c.Valid()
    ensures var z := Zone(below, rank, Perfect(c.w, lv));
            r.Resp? && Falling(c.w, z) && AllFit(c.w, z) ==> (r.allowed <==> k in Perfect(c.w, lv))
    ensures r.Resp? && (r.allowed || !r.cycle) ==> (r.allowed <==> k in Perfect(c.w, lv))
  {
    ghost var z := Zone(below, rank, Perfect(c.w, lv));
    PerfectIsFixpoint(c.w, lv);
    if Falling(c.w, z) && AllFit(c.w, z) {
      LayeredIsSettled(c.w, lv, z);
    }
    r := c.CheckAgainst(z, k, others);
  }

  /** A key on which two fixpoints differ is answered with a cyclic no, whichever of them is meant. */
  method CheckAmbiguous(c: Checker, k: Key, others: seq<map<Key, Outcome>>, ghost S: iset<Key>, ghost S': iset<Key>)
    returns (r: Outcome)
    requires c.Valid() && Fixpoint(c.w, S) && Fixpoint(c.w, S') && k in S && k !in S'
    requires forall m :: m in others ==> CacheRight(c.w, m)
    modifies c`cache
    ensures c.Valid() && (r.Resp? ==> r == Resp(false, true))
    ensures Sturdy(c.w) && Defined(c.w, k.obj.typ, k.relation) && |Universe(c.w, k.obj, k.user)| < c.w.maxDepth ==>
              r.Resp?
  {
    r := c.Check(k, others);
  }
}
