/**
 The three set-operation reducers of the v1 check evaluator. Handlers run concurrently and
 deliver their outcomes in an arbitrary order; a reducer folds the outcomes in the order in
 which they arrive and may return before having seen all of them.
 */
module Reducers {

  /** A response (with its cycle flag) or an error. */
  datatype Outcome = Resp(allowed: bool, cycle: bool) | Err(code: int)

  /** What a caller can act on: the cycle flag and the identity of an error are forgotten. */
  datatype Verdict = Yes | No | Failed

  const UNKNOWN_OPERANDS := -1

  function Class(o: Outcome): Verdict {
    if o.Err? then Failed else if o.allowed then Yes else No
  }

  predicate Cyclic(o: Outcome) { o.Resp? && o.cycle }

  /** No response is both allowed and marked as part of a cycle. */
  predicate Coherent(o: Outcome) { o.Resp? ==> !(o.allowed && o.cycle) }

  /** An outcome that settles an intersection, or the base of an exclusion. */
  predicate Refusing(o: Outcome) { o.Resp? && (o.cycle || !o.allowed) }

  /** An outcome of the subtracted operand that settles an exclusion. */
  predicate Subtracting(o: Outcome) { o.Resp? && (o.cycle || o.allowed) }

  ghost function UnionClass(os: seq<Outcome>): Verdict {
    if exists o :: o in os && Class(o) == Yes then Yes
    else if exists o :: o in os && o.Err? then Failed
    else No
  }

  ghost function IntersectionClass(os: seq<Outcome>): Verdict {
    if |os| < 2 then Failed
    else if exists o :: o in os && Refusing(o) then No
    else if exists o :: o in os && o.Err? then Failed
    else Yes
  }

  ghost function ExclusionClass(base: Outcome, sub: Outcome): Verdict {
    if Refusing(base) || Subtracting(sub) then No
    else if base.Err? || sub.Err? then Failed
    else Yes
  }

  /** Delivers the outcomes of a set of handlers in any order whatsoever. */
  method Arrive(outs: seq<Outcome>) returns (arrivals: seq<Outcome>)
    ensures multiset(arrivals) == multiset(outs)
    ensures |arrivals| == |outs|
    ensures forall o :: o in arrivals <==> o in outs
  {
    var rest := outs;
    arrivals := [];
    while rest != []
      invariant multiset(arrivals) + multiset(rest) == multiset(outs)
      invariant |arrivals| + |rest| == |outs|
      decreases |rest|
    {
      var k :| 0 <= k < |rest|;
      assert rest == rest[..k] + [rest[k]] + rest[k + 1..];
      arrivals, rest := arrivals + [rest[k]], rest[..k] + rest[k + 1..];
    }
    SameMembers(arrivals, outs);
  }

  lemma SameMembers(a: seq<Outcome>, b: seq<Outcome>)
    requires multiset(a) == multiset(b)
    ensures |a| == |b|
    ensures forall o :: o in a <==> o in b
  {
    assert |a| == |multiset(a)| == |multiset(b)| == |b|;
    forall o
      ensures o in a <==> o in b
    {
      assert o in a <==> o in multiset(a);
      assert o in b <==> o in multiset(b);
    }
  }

  /** The verdict does not depend on the order in which outcomes arrive. */
  lemma ArrivalOrderIrrelevant(a: seq<Outcome>, b: seq<Outcome>)
    requires multiset(a) == multiset(b)
    ensures UnionClass(a) == UnionClass(b)
    ensures IntersectionClass(a) == IntersectionClass(b)
  {
    SameMembers(a, b);
  }

  method Union(arrivals: seq<Outcome>) returns (r: Outcome)
    ensures Class(r) == UnionClass(arrivals)
    ensures Class(r) == Yes ==> r in arrivals
    ensures Class(r) == No ==> (r.cycle <==> exists o :: o in arrivals && Cyclic(o))
    ensures r.Err? ==> exists i :: 0 <= i < |arrivals| && arrivals[i] == r
                              && forall j :: i < j < |arrivals| ==> !arrivals[j].Err?
    ensures (forall o :: o in arrivals ==> Coherent(o)) ==> Coherent(r)
  {
    var finalErr: Outcome := Resp(false, false);
    var cycle := false;
    ghost var errAt := -1;
    for i := 0 to |arrivals|
      invariant forall o :: o in arrivals[..i] ==> Class(o) != Yes
      invariant finalErr.Err? <==> exists o :: o in arrivals[..i] && o.Err?
      invariant finalErr.Err? ==> 0 <= errAt < i && arrivals[errAt] == finalErr
      invariant finalErr.Err? ==> forall j :: errAt < j < i ==> !arrivals[j].Err?
      invariant cycle <==> exists o :: o in arrivals[..i] && Cyclic(o)
    {
      var outcome := arrivals[i];
      assert arrivals[..i + 1] == arrivals[..i] + [outcome];
      if outcome.Err? {
        finalErr := outcome;
        errAt := i;
        continue;
      }
      assert outcome in arrivals[..i + 1];
      if outcome.cycle {
        assert Cyclic(outcome);
        cycle := true;
      }
      if outcome.allowed {
        return outcome;
      }
    }
    assert arrivals[..|arrivals|] == arrivals;
    if finalErr.Err? {
      return finalErr;
    }
    return Resp(false, cycle);
  }

  method Intersection(arrivals: seq<Outcome>) returns (r: Outcome)
    ensures Class(r) == IntersectionClass(arrivals)
    // the cycle flag is that of the first refusing outcome to arrive
    ensures Class(r) == No ==> exists i :: 0 <= i < |arrivals| && Refusing(arrivals[i])
                                      && r.cycle == arrivals[i].cycle
                                      && forall j :: 0 <= j < i ==> !Refusing(arrivals[j])
    ensures |arrivals| < 2 ==> r == Err(UNKNOWN_OPERANDS)
    ensures r.Err? && 2 <= |arrivals| ==>
              exists i :: 0 <= i < |arrivals| && arrivals[i] == r
                     && forall j :: 0 <= j < i ==> !arrivals[j].Err?
    ensures Coherent(r)
  {
    if |arrivals| < 2 {
      return Err(UNKNOWN_OPERANDS);
    }
    var finalErr: Outcome := Resp(true, false);
    ghost var errAt := -1;
    for i := 0 to |arrivals|
      invariant forall j :: 0 <= j < i ==> !Refusing(arrivals[j])
      invariant finalErr.Err? <==> exists o :: o in arrivals[..i] && o.Err?
      invariant finalErr.Err? ==> 0 <= errAt < i && arrivals[errAt] == finalErr
      invariant finalErr.Err? ==> forall j :: 0 <= j < errAt ==> !arrivals[j].Err?
      invariant finalErr.Err? || finalErr == Resp(true, false)
    {
      var outcome := arrivals[i];
      assert arrivals[..i + 1] == arrivals[..i] + [outcome];
      if outcome.Err? {
        if !finalErr.Err? {
          finalErr := outcome;
          errAt := i;
          assert forall j :: 0 <= j < i ==> arrivals[j] in arrivals[..i];
        }
        continue;
      }
      if outcome.cycle || !outcome.allowed {
        assert outcome in arrivals;
        return Resp(false, outcome.cycle);
      }
    }
    assert arrivals[..|arrivals|] == arrivals;
    return finalErr;
  }

  /** `baseFirst` says which of the two operands reports first. */
  method Exclusion(base: Outcome, sub: Outcome, baseFirst: bool) returns (r: Outcome)
    ensures Class(r) == ExclusionClass(base, sub)
    ensures Class(r) == No ==>
              r.cycle == (if Refusing(base) && (baseFirst || !Subtracting(sub)) then base.cycle else Cyclic(sub))
    ensures r.Err? ==> r == if base.Err? then base else sub
    ensures Coherent(r)
  {
    var gotBase, gotSub := false, false;
    while !gotBase || !gotSub
      invariant gotBase ==> !Refusing(base)
      invariant gotSub ==> !Subtracting(sub)
      invariant baseFirst && gotSub ==> gotBase
      invariant !baseFirst && gotBase ==> gotSub
      decreases !gotBase, !gotSub
    {
      if !gotBase && (baseFirst || gotSub) {
        if base.Resp? && (base.cycle || !base.allowed) {
          return Resp(false, base.cycle);
        }
        gotBase := true;
      } else {
        if sub.Resp? && (sub.cycle || sub.allowed) {
          return Resp(false, sub.cycle);
        }
        gotSub := true;
      }
    }
    if base.Err? {
      return base;
    }
    if sub.Err? {
      return sub;
    }
    return Resp(true, false);
  }
}
