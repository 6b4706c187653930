/**
 What a grant comes down to in terms of the tuples and the model's own fields: a fixpoint of the rules, spelled
 out rewrite by rewrite, and the least one as what has a finite derivation.
 */
module Derivations {
  import opened Rules
  import opened Stratified

  // ---------------------------------------------------------------- rewrite by rewrite

  /** The rewrite of relation `r` grants the user on the object when exactly the keys of `S` are granted. */
  ghost predicate Grants(w: World, S: iset<Key>, o: Object, r: string, u: User, rw: Rewrite)
    decreases rw
  {
    match rw
    case This =>
      || (w.directlyRelated(o.typ, r, u) && Tuple(o, r, u) in w.tuples)
      || (&& u.relation == "" && w.publiclyAssignable(o.typ, r, u.obj.typ)
          && Tuple(o, r, User(Object(u.obj.typ, "*"), "")) in w.tuples)
      || (exists g, m :: && Tuple(o, r, User(g, m)) in w.tuples && m != "" && (g.typ, m) in w.usersetTypes(o.typ, r)
                         && (g == Object(u.obj.typ, "*") || Key(g, m, u) in S))
    case Computed(r') => Key(o, r', u) in S
    case TupleToUserset(ts, cr) =>
      exists p :: && Tuple(o, ts, p) in w.tuples && (p.obj.typ in w.types ==> (p.obj.typ, cr) in w.rewrites)
                  && Key(p.obj, cr, u) in S
    case Union(cs) => exists i :: 0 <= i < |cs| && Grants(w, S, o, r, u, cs[i])
    case Intersection(cs) => forall i :: 0 <= i < |cs| ==> Grants(w, S, o, r, u, cs[i])
    case Difference(b, s) => Grants(w, S, o, r, u, b) && !Grants(w, S, o, r, u, s)
  }

  lemma ThisGrants(w: World, S: iset<Key>, o: Object, r: string, u: User)
    ensures RewriteHolds(w, Key(o, r, u), This, S) <==> Grants(w, S, o, r, u, This)
  {
    var k := Key(o, r, u);
    if UsersetHolds(w, k, S) {
      var t :| UsersetTuple(w, k, t) && (WildcardUserset(k, t) || UsersetKey(k, t) in S);
      assert t == Tuple(o, r, User(t.user.obj, t.user.relation));
    }
    if g, m :| && Tuple(o, r, User(g, m)) in w.tuples && m != "" && (g.typ, m) in w.usersetTypes(o.typ, r)
               && (g == Object(u.obj.typ, "*") || Key(g, m, u) in S) {
      var t := Tuple(o, r, User(g, m));
      assert UsersetTuple(w, k, t) && (WildcardUserset(k, t) || UsersetKey(k, t) in S);
    }
  }

  lemma ParentGrants(w: World, S: iset<Key>, o: Object, r: string, u: User, ts: string, cr: string)
    ensures RewriteHolds(w, Key(o, r, u), TupleToUserset(ts, cr), S) <==>
              Grants(w, S, o, r, u, TupleToUserset(ts, cr))
  {
    var k := Key(o, r, u);
    if t :| ParentTuple(w, k, ts, cr, t) && ParentKey(k, cr, t) in S {
      assert t == Tuple(o, ts, t.user);
    }
    if p :| && Tuple(o, ts, p) in w.tuples && (p.obj.typ in w.types ==> (p.obj.typ, cr) in w.rewrites)
            && Key(p.obj, cr, u) in S {
      var t := Tuple(o, ts, p);
      assert ParentTuple(w, k, ts, cr, t) && ParentKey(k, cr, t) in S;
    }
  }

  lemma {:induction false} RewriteGrants(w: World, S: iset<Key>, o: Object, r: string, u: User, rw: Rewrite)
    ensures RewriteHolds(w, Key(o, r, u), rw, S) <==> Grants(w, S, o, r, u, rw)
    decreases rw
  {
    match rw
    case This => ThisGrants(w, S, o, r, u);
    case Computed(_) =>
    case TupleToUserset(ts, cr) => ParentGrants(w, S, o, r, u, ts, cr);
    case Union(cs) =>
      forall i | 0 <= i < |cs| ensures RewriteHolds(w, Key(o, r, u), cs[i], S) <==> Grants(w, S, o, r, u, cs[i]) {
        RewriteGrants(w, S, o, r, u, cs[i]);
      }
    case Intersection(cs) =>
      forall i | 0 <= i < |cs| ensures RewriteHolds(w, Key(o, r, u), cs[i], S) <==> Grants(w, S, o, r, u, cs[i]) {
        RewriteGrants(w, S, o, r, u, cs[i]);
      }
    case Difference(b, s) =>
      RewriteGrants(w, S, o, r, u, b);
      RewriteGrants(w, S, o, r, u, s);
  }

  /** A user is the userset itself, or the relation's rewrite grants it where a path of types leads to the relation. */
  ghost predicate Has(w: World, S: iset<Key>, o: Object, r: string, u: User) {
    || u == User(o, r)
    || (&& (o.typ, r) in w.rewrites && w.pathExists(u, r, o.typ)
        && Grants(w, S, o, r, u, w.rewrites[(o.typ, r)]))
  }

  /** In every fixpoint of the rules, and so in the least one and in the perfect model. */
  lemma FixpointMeans(w: World, S: iset<Key>, o: Object, r: string, u: User)
    requires Fixpoint(w, S)
    ensures Key(o, r, u) in S <==> Has(w, S, o, r, u)
  {
    assert Key(o, r, u) in S <==> Rule(w, Key(o, r, u), S);
    if (o.typ, r) in w.rewrites {
      RewriteGrants(w, S, o, r, u, w.rewrites[(o.typ, r)]);
    }
  }

  lemma GrantedMeans(w: World, o: Object, r: string, u: User)
    requires Positive(w)
    ensures Key(o, r, u) in Granted(w) <==> Has(w, Granted(w), o, r, u)
  {
    GrantedIsLeastFixpoint(w);
    FixpointMeans(w, Granted(w), o, r, u);
  }

  lemma PerfectMeans(w: World, lv: Levels, o: Object, r: string, u: User)
    requires Layers(w, lv)
    ensures Key(o, r, u) in Perfect(w, lv) <==> Has(w, Perfect(w, lv), o, r, u)
  {
    PerfectIsFixpoint(w, lv);
    FixpointMeans(w, Perfect(w, lv), o, r, u);
  }

  // ---------------------------------------------------------------- derivations

  /**
   Why a user has a relation. `Itself` is the userset itself; `By` applies the relation's rewrite. The others
   justify a rewrite: an own tuple, a public wildcard, a userset wildcard, a userset and why the user is in it,
   another relation, a parent, one operand of a union, or all operands of an intersection.
   */
  datatype Proof =
    | Itself
    | By(body: Proof)
    | Assigned
    | Public
    | Everyone(members: string)
    | Member(group: Object, members: string, why: Proof)
    | Same(why: Proof)
    | Above(parent: User, why: Proof)
    | Choice(i: nat, why: Proof)
    | Each(whys: seq<Proof>)

  predicate Proves(w: World, p: Proof, o: Object, r: string, u: User)
    decreases p, 1
  {
    match p
    case Itself => u == User(o, r)
    case By(body) =>
      && (o.typ, r) in w.rewrites && w.pathExists(u, r, o.typ)
      && Justifies(w, body, o, r, u, w.rewrites[(o.typ, r)])
    case _ => false
  }

  predicate Justifies(w: World, p: Proof, o: Object, r: string, u: User, rw: Rewrite)
    decreases p, 0
  {
    match p
    case Assigned => rw.This? && w.directlyRelated(o.typ, r, u) && Tuple(o, r, u) in w.tuples
    case Public =>
      && rw.This? && u.relation == "" && w.publiclyAssignable(o.typ, r, u.obj.typ)
      && Tuple(o, r, User(Object(u.obj.typ, "*"), "")) in w.tuples
    case Everyone(m) =>
      && rw.This? && m != "" && (u.obj.typ, m) in w.usersetTypes(o.typ, r)
      && Tuple(o, r, User(Object(u.obj.typ, "*"), m)) in w.tuples
    case Member(g, m, why) =>
      && rw.This? && m != "" && (g.typ, m) in w.usersetTypes(o.typ, r) && Tuple(o, r, User(g, m)) in w.tuples
      && Proves(w, why, g, m, u)
    case Same(why) => rw.Computed? && Proves(w, why, o, rw.relation, u)
    case Above(parent, why) =>
      && rw.TupleToUserset? && Tuple(o, rw.tupleset, parent) in w.tuples
      && (parent.obj.typ in w.types ==> (parent.obj.typ, rw.computed) in w.rewrites)
      && Proves(w, why, parent.obj, rw.computed, u)
    case Choice(i, why) => rw.Union? && i < |rw.children| && Justifies(w, why, o, r, u, rw.children[i])
    case Each(whys) =>
      && rw.Intersection? && |whys| == |rw.children|
      && forall i :: 0 <= i < |whys| ==> Justifies(w, whys[i], o, r, u, rw.children[i])
    case _ => false
  }

  ghost predicate Proved(w: World, k: Key) {
    exists p :: Proves(w, p, k.obj, k.relation, k.user)
  }

  ghost function Provable(w: World): iset<Key> {
    iset k | Proved(w, k)
  }

  /** A derivation is right in every fixpoint. */
  lemma {:induction false} ProofIsSound(w: World, S: iset<Key>, p: Proof, o: Object, r: string, u: User)
    requires Fixpoint(w, S) && Proves(w, p, o, r, u)
    ensures Key(o, r, u) in S
    decreases p, 1
  {
    if p.By? {
      JustifiedGrants(w, S, p.body, o, r, u, w.rewrites[(o.typ, r)]);
    }
    FixpointMeans(w, S, o, r, u);
  }

  lemma {:induction false} JustifiedGrants(w: World, S: iset<Key>, p: Proof, o: Object, r: string, u: User, rw: Rewrite)
    requires Fixpoint(w, S) && Justifies(w, p, o, r, u, rw)
    ensures Grants(w, S, o, r, u, rw)
    decreases p, 0
  {
    match p
    case Member(g, m, why) => ProofIsSound(w, S, why, g, m, u);
    case Same(why) => ProofIsSound(w, S, why, o, rw.relation, u);
    case Above(parent, why) => ProofIsSound(w, S, why, parent.obj, rw.computed, u);
    case Choice(i, why) => JustifiedGrants(w, S, why, o, r, u, rw.children[i]);
    case Each(whys) =>
      forall i | 0 <= i < |whys|
        ensures Grants(w, S, o, r, u, rw.children[i])
      {
        JustifiedGrants(w, S, whys[i], o, r, u, rw.children[i]);
      }
    case _ =>
  }

  /** What the rewrite grants from derivable keys has a derivation. */
  lemma {:induction false} GrantIsJustified(w: World, o: Object, r: string, u: User, rw: Rewrite) returns (p: Proof)
    requires Subtractionless(rw) && Grants(w, Provable(w), o, r, u, rw)
    ensures Justifies(w, p, o, r, u, rw)
    decreases rw, 1
  {
    match rw
    case This =>
      p := AssignmentIsJustified(w, o, r, u);
    case Computed(r') =>
      var why :| Proves(w, why, o, r', u);
      p := Same(why);
    case TupleToUserset(ts, cr) =>
      var parent :| && Tuple(o, ts, parent) in w.tuples
                    && (parent.obj.typ in w.types ==> (parent.obj.typ, cr) in w.rewrites)
                    && Key(parent.obj, cr, u) in Provable(w);
      assert Proved(w, Key(parent.obj, cr, u));
      var why :| Proves(w, why, parent.obj, cr, u);
      p := Above(parent, why);
    case Union(cs) =>
      var i: nat :| i < |cs| && Grants(w, Provable(w), o, r, u, cs[i]);
      assert cs[i] in cs;
      var why := GrantIsJustified(w, o, r, u, cs[i]);
      p := Choice(i, why);
    case Intersection(cs) =>
      var whys := AllAreJustified(w, o, r, u, cs, |cs|);
      p := Each(whys);
  }

  lemma {:induction false} AllAreJustified(w: World, o: Object, r: string, u: User, cs: seq<Rewrite>, n: nat)
    returns (ps: seq<Proof>)
    requires n <= |cs| && forall c :: c in cs ==> Subtractionless(c)
    requires forall i :: 0 <= i < |cs| ==> Grants(w, Provable(w), o, r, u, cs[i])
    ensures |ps| == n && forall i :: 0 <= i < n ==> Justifies(w, ps[i], o, r, u, cs[i])
    decreases cs, 0, n
  {
    ps := [];
    if n > 0 {
      ps := AllAreJustified(w, o, r, u, cs, n - 1);
      assert cs[n - 1] in cs;
      var p := GrantIsJustified(w, o, r, u, cs[n - 1]);
      ps := ps + [p];
    }
  }

  lemma AssignmentIsJustified(w: World, o: Object, r: string, u: User) returns (p: Proof)
    requires Grants(w, Provable(w), o, r, u, This)
    ensures Justifies(w, p, o, r, u, This)
  {
    if w.directlyRelated(o.typ, r, u) && Tuple(o, r, u) in w.tuples {
      return Assigned;
    }
    if && u.relation == "" && w.publiclyAssignable(o.typ, r, u.obj.typ)
       && Tuple(o, r, User(Object(u.obj.typ, "*"), "")) in w.tuples {
      return Public;
    }
    var g, m :| && Tuple(o, r, User(g, m)) in w.tuples && m != "" && (g.typ, m) in w.usersetTypes(o.typ, r)
                && (g == Object(u.obj.typ, "*") || Key(g, m, u) in Provable(w));
    if g == Object(u.obj.typ, "*") {
      return Everyone(m);
    }
    assert Proved(w, Key(g, m, u));
    var why :| Proves(w, why, g, m, u);
    p := Member(g, m, why);
  }

  lemma RuleIsProved(w: World, k: Key)
    requires Positive(w) && Rule(w, k, Provable(w))
    ensures k in Provable(w)
  {
    if SelfDefining(k) {
      assert Proves(w, Itself, k.obj, k.relation, k.user);
    } else {
      var rw := w.rewrites[(k.obj.typ, k.relation)];
      RewriteGrants(w, Provable(w), k.obj, k.relation, k.user, rw);
      var p := GrantIsJustified(w, k.obj, k.relation, k.user, rw);
      assert Proves(w, By(p), k.obj, k.relation, k.user);
    }
  }

  lemma GrantedIsProved(w: World, k: Key)
    requires Positive(w) && k in Granted(w)
    ensures Proved(w, k)
  {
    var S := Provable(w);
    forall j | Rule(w, j, Mix(NOWHERE, S))
      ensures j in S
    {
      MixNowhere(NOWHERE, S);
      RuleIsProved(w, j);
    }
    assert Absorbs(w, NOWHERE, {}, S) && InEvery(w, NOWHERE, {}, k);
  }

  /** Without exclusion, granted is derivable from the tuples in finitely many steps. */
  lemma GrantedIffProved(w: World, k: Key)
    requires Positive(w)
    ensures k in Granted(w) <==> Proved(w, k)
  {
    GrantedIsLeastFixpoint(w);
    if Proved(w, k) {
      var p :| Proves(w, p, k.obj, k.relation, k.user);
      ProofIsSound(w, Granted(w), p, k.obj, k.relation, k.user);
    }
    if k in Granted(w) {
      GrantedIsProved(w, k);
    }
  }
}
