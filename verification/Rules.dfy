/**
 The meaning of a check: relationship tuples, relation rewrites, and the operator that the
 rewrites induce on sets of (object, relation, user) keys. Authorization is membership in
 the least fixpoint of that operator when no rewrite subtracts.
 */
module Rules {

  datatype Object = Object(typ: string, id: string)

  /** `user:alice` and `user:*` have no relation; `group:1#member` has one. */
  datatype User = User(obj: Object, relation: string)

  /** A tuple that passed validation and whose condition is met. */
  datatype Tuple = Tuple(obj: Object, relation: string, user: User)

  datatype Key = Key(obj: Object, relation: string, user: User)

  datatype Rewrite =
    | This
    | Computed(relation: string)
    | TupleToUserset(tupleset: string, computed: string)
    | Union(children: seq<Rewrite>)
    | Intersection(children: seq<Rewrite>)
    | Difference(base: Rewrite, subtract: Rewrite)

  /**
   Everything one check request reads and does not change: the tuples, the model, and the
   model's derived predicates. `reliable` says that no storage read, condition or path
   lookup fails; when it is false any of them may.
   */
  datatype World = World(
    tuples: seq<Tuple>,
    types: set<string>,
    rewrites: map<(string, string), Rewrite>,
    directlyRelated: (string, string, User) -> bool,
    publiclyAssignable: (string, string, string) -> bool,
    usersetTypes: (string, string) -> set<(string, string)>,
    pathExists: (User, string, string) -> bool,
    maxDepth: nat,
    reliable: bool)

  const WILDCARD := "*"

  /** The objects an evaluation that starts at `root` can meet. */
  function Objects(w: World, root: Object): set<Object> {
    {root} + set t | t in w.tuples :: t.user.obj
  }

  /** The keys with a defined relation that an evaluation for `u` from `root` can meet. */
  ghost function Universe(w: World, root: Object, u: User): set<Key> {
    set o, tr | o in Objects(w, root) && tr in w.rewrites.Keys && o.typ == tr.0 :: Key(o, tr.1, u)
  }

  predicate Defined(w: World, typ: string, relation: string) { (typ, relation) in w.rewrites }

  predicate SelfDefining(k: Key) { k.user == User(k.obj, k.relation) }

  // ---------------------------------------------------------------- what the tuples say

  predicate DirectTuple(w: World, k: Key) {
    && w.directlyRelated(k.obj.typ, k.relation, k.user)
    && Tuple(k.obj, k.relation, k.user) in w.tuples
  }

  /** The public wildcard of the user's type is assigned to the key's relation. */
  predicate PublicTuple(w: World, k: Key) {
    && k.user.relation == ""
    && w.publiclyAssignable(k.obj.typ, k.relation, k.user.obj.typ)
    && Tuple(k.obj, k.relation, User(Object(k.user.obj.typ, WILDCARD), "")) in w.tuples
  }

  /** `t` assigns an admissible userset to the key's object and relation. */
  predicate UsersetTuple(w: World, k: Key, t: Tuple) {
    && t in w.tuples
    && t.obj == k.obj && t.relation == k.relation && t.user.relation != ""
    && (t.user.obj.typ, t.user.relation) in w.usersetTypes(k.obj.typ, k.relation)
  }

  /** The userset is a wildcard of the user's own type, which ends the search. */
  predicate WildcardUserset(k: Key, t: Tuple) {
    t.user.obj == Object(k.user.obj.typ, WILDCARD)
  }

  function UsersetKey(k: Key, t: Tuple): Key {
    Key(t.user.obj, t.user.relation, k.user)
  }

  /** `t` links the key's object to a parent on which `computed` is not known to be undefined. */
  predicate ParentTuple(w: World, k: Key, tupleset: string, computed: string, t: Tuple) {
    && t in w.tuples
    && t.obj == k.obj && t.relation == tupleset
    && (t.user.obj.typ in w.types ==> Defined(w, t.user.obj.typ, computed))
  }

  function ParentKey(k: Key, computed: string, t: Tuple): Key {
    Key(t.user.obj, computed, k.user)
  }

  // ---------------------------------------------------------------- the rules

  ghost predicate UsersetHolds(w: World, k: Key, S: iset<Key>) {
    exists t :: UsersetTuple(w, k, t) && (WildcardUserset(k, t) || UsersetKey(k, t) in S)
  }

  ghost predicate RewriteHolds(w: World, k: Key, rw: Rewrite, S: iset<Key>) {
    match rw
    case This => DirectTuple(w, k) || PublicTuple(w, k) || UsersetHolds(w, k, S)
    case Computed(r) => Key(k.obj, r, k.user) in S
    case TupleToUserset(ts, cr) => exists t :: ParentTuple(w, k, ts, cr, t) && ParentKey(k, cr, t) in S
    case Union(cs) => exists i :: 0 <= i < |cs| && RewriteHolds(w, k, cs[i], S)
    case Intersection(cs) => forall i :: 0 <= i < |cs| ==> RewriteHolds(w, k, cs[i], S)
    case Difference(b, s) => RewriteHolds(w, k, b, S) && !RewriteHolds(w, k, s, S)
  }

  /** One application of the rules: is `k` granted when exactly the keys of `S` are? */
  ghost predicate Rule(w: World, k: Key, S: iset<Key>) {
    || SelfDefining(k)
    || (&& Defined(w, k.obj.typ, k.relation)
        && w.pathExists(k.user, k.relation, k.obj.typ)
        && RewriteHolds(w, k, w.rewrites[(k.obj.typ, k.relation)], S))
  }

  ghost predicate Fixpoint(w: World, S: iset<Key>) {
    forall k :: k in S <==> Rule(w, k, S)
  }

  predicate Subtractionless(rw: Rewrite) {
    match rw
    case Union(cs) => forall c :: c in cs ==> Subtractionless(c)
    case Intersection(cs) => forall c :: c in cs ==> Subtractionless(c)
    case Difference(_, _) => false
    case _ => true
  }

  /** No relation of the model uses "but not". */
  predicate Positive(w: World) {
    forall tr :: tr in w.rewrites ==> Subtractionless(w.rewrites[tr])
  }

  // ---------------------------------------------------------------- what a key looks up

  /** Evaluating the rewrite for `k` may ask for `j`. */
  ghost predicate LooksUp(w: World, k: Key, rw: Rewrite, j: Key) {
    match rw
    case This => exists t :: UsersetTuple(w, k, t) && j == UsersetKey(k, t)
    case Computed(r) => j == Key(k.obj, r, k.user)
    case TupleToUserset(ts, cr) => exists t :: ParentTuple(w, k, ts, cr, t) && j == ParentKey(k, cr, t)
    case Union(cs) => exists i :: 0 <= i < |cs| && LooksUp(w, k, cs[i], j)
    case Intersection(cs) => exists i :: 0 <= i < |cs| && LooksUp(w, k, cs[i], j)
    case Difference(b, s) => LooksUp(w, k, b, j) || LooksUp(w, k, s, j)
  }

  /** The key has a rewrite that is evaluated. */
  predicate Evaluated(w: World, k: Key) {
    !SelfDefining(k) && Defined(w, k.obj.typ, k.relation) && w.pathExists(k.user, k.relation, k.obj.typ)
  }

  ghost predicate Asks(w: World, k: Key, j: Key) {
    Evaluated(w, k) && LooksUp(w, k, w.rewrites[(k.obj.typ, k.relation)], j)
  }

  /** Only the keys that a rewrite looks up decide it. */
  lemma {:induction false} LookupsDecide(w: World, k: Key, rw: Rewrite, S: iset<Key>, S': iset<Key>)
    requires forall j :: LooksUp(w, k, rw, j) ==> (j in S <==> j in S')
    ensures RewriteHolds(w, k, rw, S) <==> RewriteHolds(w, k, rw, S')
    decreases rw
  {
    match rw
    case This =>
      assert forall t :: UsersetTuple(w, k, t) ==> LooksUp(w, k, rw, UsersetKey(k, t));
    case Computed(_) =>
    case TupleToUserset(ts, cr) =>
      assert forall t :: ParentTuple(w, k, ts, cr, t) ==> LooksUp(w, k, rw, ParentKey(k, cr, t));
    case Union(cs) =>
      forall i | 0 <= i < |cs| ensures RewriteHolds(w, k, cs[i], S) <==> RewriteHolds(w, k, cs[i], S') {
        LookupsDecide(w, k, cs[i], S, S');
      }
    case Intersection(cs) =>
      forall i | 0 <= i < |cs| ensures RewriteHolds(w, k, cs[i], S) <==> RewriteHolds(w, k, cs[i], S') {
        LookupsDecide(w, k, cs[i], S, S');
      }
    case Difference(b, s) =>
      LookupsDecide(w, k, b, S, S');
      LookupsDecide(w, k, s, S, S');
  }

  // ---------------------------------------------------------------- zones

  /**
   A set of keys that only look up each other, with a rank that falls along every lookup, and the fixpoint
   that is meant. Without exclusion the zone may be empty.
   */
  datatype Zone = Zone(keys: iset<Key>, rank: Key -> nat, model: iset<Key>)

  ghost predicate Falling(w: World, z: Zone) {
    forall k, j :: k in z.keys && Asks(w, k, j) ==> j in z.keys && z.rank(j) < z.rank(k)
  }

  /** Everything that the rewrite subtracts is looked up in the zone. */
  ghost predicate Fits(w: World, z: Zone, k: Key, rw: Rewrite) {
    match rw
    case Union(cs) => forall i :: 0 <= i < |cs| ==> Fits(w, z, k, cs[i])
    case Intersection(cs) => forall i :: 0 <= i < |cs| ==> Fits(w, z, k, cs[i])
    case Difference(b, s) => Fits(w, z, k, b) && forall j :: LooksUp(w, k, s, j) ==> j in z.keys
    case _ => true
  }

  ghost predicate AllFit(w: World, z: Zone) {
    forall k :: Evaluated(w, k) ==> Fits(w, z, k, w.rewrites[(k.obj.typ, k.relation)])
  }

  /** The keys of `S`, except that the model decides in the zone. */
  ghost function Mix(z: Zone, S: iset<Key>): iset<Key> {
    iset k | if k in z.keys then k in z.model else k in S
  }

  lemma {:induction false} RewriteMonotone(w: World, z: Zone, k: Key, rw: Rewrite, S: iset<Key>, S': iset<Key>)
    requires Fits(w, z, k, rw) && S <= S' && RewriteHolds(w, k, rw, Mix(z, S))
    ensures RewriteHolds(w, k, rw, Mix(z, S'))
    decreases rw
  {
    match rw
    case This =>
    case Computed(_) =>
    case TupleToUserset(ts, cr) =>
    case Union(cs) =>
      var i :| 0 <= i < |cs| && RewriteHolds(w, k, cs[i], Mix(z, S));
      RewriteMonotone(w, z, k, cs[i], S, S');
    case Intersection(cs) =>
      forall i | 0 <= i < |cs| ensures RewriteHolds(w, k, cs[i], Mix(z, S')) {
        RewriteMonotone(w, z, k, cs[i], S, S');
      }
    case Difference(b, s) =>
      RewriteMonotone(w, z, k, b, S, S');
      LookupsDecide(w, k, s, Mix(z, S), Mix(z, S'));
  }

  lemma RuleMonotone(w: World, z: Zone, k: Key, S: iset<Key>, S': iset<Key>)
    requires AllFit(w, z) && S <= S' && Rule(w, k, Mix(z, S))
    ensures Rule(w, k, Mix(z, S'))
  {
    if !SelfDefining(k) {
      RewriteMonotone(w, z, k, w.rewrites[(k.obj.typ, k.relation)], S, S');
    }
  }

  // ---------------------------------------------------------------- least fixpoints, with some keys cut

  /** `S` absorbs every key outside `cut` that the rules grant from `S` and the zone. */
  ghost predicate Absorbs(w: World, z: Zone, cut: set<Key>, S: iset<Key>) {
    forall k :: k !in cut && Rule(w, k, Mix(z, S)) ==> k in S
  }

  ghost predicate InEvery(w: World, z: Zone, cut: set<Key>, k: Key) {
    forall S :: Absorbs(w, z, cut, S) ==> k in S
  }

  /** The keys derivable without ever using a key of `cut`. */
  ghost function Derivable(w: World, z: Zone, cut: set<Key>): iset<Key> {
    iset k | InEvery(w, z, cut, k)
  }

  lemma DerivableAbsorbs(w: World, z: Zone, cut: set<Key>)
    requires AllFit(w, z)
    ensures Absorbs(w, z, cut, Derivable(w, z, cut))
  {
    var D := Derivable(w, z, cut);
    forall k | k !in cut && Rule(w, k, Mix(z, D))
      ensures k in D
    {
      forall S | Absorbs(w, z, cut, S)
        ensures k in S
      {
        assert D <= S;
        RuleMonotone(w, z, k, D, S);
      }
    }
  }

  lemma CutKeysUnderivable(w: World, z: Zone, cut: set<Key>, k: Key)
    requires k in cut
    ensures k !in Derivable(w, z, cut)
  {
    var S := iset j | j !in cut;
    assert Absorbs(w, z, cut, S);
    assert k !in S;
  }

  /** A key that no rule can grant is not derivable. */
  lemma UngrantedUnderivable(w: World, z: Zone, cut: set<Key>, k: Key)
    requires !SelfDefining(k) && !Evaluated(w, k)
    ensures k !in Derivable(w, z, cut)
  {
    var only := {k};
    var S := iset j | j !in only;
    assert Absorbs(w, z, cut, S);
    assert k !in S;
  }

  /** Cutting a key that has no derivation avoiding itself loses nothing. */
  lemma CutIsHarmless(w: World, z: Zone, cut: set<Key>, k: Key)
    requires AllFit(w, z)
    requires !Rule(w, k, Mix(z, Derivable(w, z, cut + {k})))
    ensures k !in Derivable(w, z, cut)
  {
    var S := Derivable(w, z, cut + {k});
    DerivableAbsorbs(w, z, cut + {k});
    forall j | j !in cut && Rule(w, j, Mix(z, S))
      ensures j in S
    {
      assert j != k;
      assert j !in cut + {k};
    }
    assert Absorbs(w, z, cut, S);
    CutKeysUnderivable(w, z, cut + {k}, k);
  }

  /** What is derivable is in every fixpoint that agrees with the model in the zone. */
  lemma DerivableIsInFixpoint(w: World, z: Zone, cut: set<Key>)
    requires Fixpoint(w, z.model)
    ensures Derivable(w, z, cut) <= z.model
  {
    assert Mix(z, z.model) == z.model;
    assert Absorbs(w, z, cut, z.model);
  }

  /**
   The zone settles the world: its model is a fixpoint, whatever is subtracted is looked up in the zone, and
   outside the zone the model holds nothing but what is derivable.
   */
  ghost predicate Settled(w: World, z: Zone) {
    && Falling(w, z) && AllFit(w, z) && Fixpoint(w, z.model)
    && forall k :: k in z.model && k !in z.keys ==> k in Derivable(w, z, {})
  }

  // ---------------------------------------------------------------- worlds without exclusion

  const NOWHERE := Zone(iset{}, (k: Key) => 0, iset{})

  /** The least fixpoint of the rules. */
  ghost function Granted(w: World): iset<Key> { Derivable(w, NOWHERE, {}) }

  lemma MixNowhere(z: Zone, S: iset<Key>)
    requires z.keys == iset{}
    ensures Mix(z, S) == S
  {
  }

  lemma {:induction false} SubtractionlessFits(w: World, z: Zone, k: Key, rw: Rewrite)
    requires Subtractionless(rw)
    ensures Fits(w, z, k, rw)
    decreases rw
  {
    match rw
    case Union(cs) =>
      forall i | 0 <= i < |cs| ensures Fits(w, z, k, cs[i]) {
        SubtractionlessFits(w, z, k, cs[i]);
      }
    case Intersection(cs) =>
      forall i | 0 <= i < |cs| ensures Fits(w, z, k, cs[i]) {
        SubtractionlessFits(w, z, k, cs[i]);
      }
    case _ =>
  }

  lemma PositiveFits(w: World, z: Zone)
    requires Positive(w)
    ensures AllFit(w, z)
  {
    forall k | Evaluated(w, k)
      ensures Fits(w, z, k, w.rewrites[(k.obj.typ, k.relation)])
    {
      SubtractionlessFits(w, z, k, w.rewrites[(k.obj.typ, k.relation)]);
    }
  }

  lemma GrantedIsLeastFixpoint(w: World)
    requires Positive(w)
    ensures Fixpoint(w, Granted(w))
    ensures forall S :: Fixpoint(w, S) ==> Granted(w) <= S
  {
    var D := Granted(w);
    PositiveFits(w, NOWHERE);
    DerivableAbsorbs(w, NOWHERE, {});
    MixNowhere(NOWHERE, D);
    forall k | k in D
      ensures Rule(w, k, D)
    {
      var S := iset j | j in D && Rule(w, j, D);
      MixNowhere(NOWHERE, S);
      forall j | Rule(w, j, S)
        ensures j in S
      {
        RuleMonotone(w, NOWHERE, j, S, D);
      }
      assert Absorbs(w, NOWHERE, {}, S);
    }
    forall S | Fixpoint(w, S)
      ensures D <= S
    {
      MixNowhere(NOWHERE, S);
      assert Absorbs(w, NOWHERE, {}, S);
    }
  }

  /** Without exclusion the empty zone settles the world, with the least fixpoint as its model. */
  ghost function LeastZone(w: World): Zone {
    NOWHERE.(model := Granted(w))
  }

  lemma PositiveIsSettled(w: World)
    requires Positive(w)
    ensures Settled(w, LeastZone(w))
  {
    var z := LeastZone(w);
    PositiveFits(w, z);
    GrantedIsLeastFixpoint(w);
    forall k | k in Granted(w)
      ensures k in Derivable(w, z, {})
    {
      forall S | Absorbs(w, z, {}, S)
        ensures k in S
      {
        MixNowhere(z, S);
        MixNowhere(NOWHERE, S);
        assert Absorbs(w, NOWHERE, {}, S);
      }
    }
  }
}
