/**
 A leaf of a bottom-up tree: the stored objects of a user merged with the contextual ones, and what an
 exclusion over such a leaf delivers.
 */
module ContextualLeaves {
  import opened Ids
  import opened Sorted
  import opened Channels
  import opened BottomUp

  /** The merge of stored and contextual objects never finds two of them equal, so both stay. */
  method MergeContextual(stored: seq<Id>, contextual: seq<Id>) returns (out: seq<Id>)
    requires NonDescending(stored) && NonDescending(contextual)
    ensures multiset(out) == multiset(stored) + multiset(contextual)
    ensures NonDescending(out)
  {
    var a, b := stored, contextual;
    out := [];
    while a != [] || b != []
      invariant Merging(multiset(stored) + multiset(contextual), out, a, b)
      decreases |a| + |b|
    {
      if b == [] || (a != [] && a[0] < b[0]) {
        TakeFrom(multiset(stored) + multiset(contextual), out, a, b);
        out, a := out + [a[0]], a[1..];
      } else {
        TakeFrom(multiset(stored) + multiset(contextual), out, b, a);
        out, b := out + [b[0]], b[1..];
      }
    }
  }

  ghost predicate Merging(all: multiset<Id>, out: seq<Id>, a: seq<Id>, b: seq<Id>) {
    && multiset(out) + multiset(a) + multiset(b) == all
    && NonDescending(out) && NonDescending(a) && NonDescending(b)
    && forall x, v :: x in out && (v in a || v in b) ==> x <= v
  }

  lemma MoveHead(out: seq<Id>, a: seq<Id>)
    requires a != []
    ensures multiset(out + [a[0]]) + multiset(a[1..]) == multiset(out) + multiset(a)
  {
    SplitHead(a);
  }

  lemma TakeFrom(all: multiset<Id>, out: seq<Id>, a: seq<Id>, b: seq<Id>)
    requires Merging(all, out, a, b) && a != [] && (b != [] ==> a[0] <= b[0])
    ensures Merging(all, out + [a[0]], a[1..], b)
  {
    var v0 := a[0];
    assert v0 in a;
    MoveHead(out, a);
    HeadIsLeast(a);
    if b != [] {
      HeadIsLeast(b);
    }
    AppendKeepsOrder(out, v0);
    assert forall x :: x in out + [v0] ==> x in out || x == v0;
  }

  /** A value of two strictly ascending streams counts once for each. */
  lemma MergedCounts(stored: seq<Id>, contextual: seq<Id>, sub: seq<Id>, base: seq<Id>, v: Id)
    requires Ascending(stored) && Ascending(contextual) && Ascending(sub)
    requires multiset(base) == multiset(stored) + multiset(contextual)
    ensures v in Remainder(base, sub) <==>
              ((v in stored || v in contextual) && v !in sub) || (v in stored && v in contextual && v in sub)
  {
    AscendingCounts(stored, v);
    AscendingCounts(contextual, v);
    AscendingCounts(sub, v);
  }

  ghost function InAll(stored: seq<Id>, contextual: seq<Id>, sub: seq<Id>): set<Id> {
    Elems(stored) * Elems(contextual) * Elems(sub) - {EMPTY}
  }

  lemma LeafDifference(stored: seq<Id>, contextual: seq<Id>, sub: seq<Id>, base: seq<Id>, out: seq<Id>)
    requires Ascending(stored) && Ascending(contextual) && Ascending(sub)
    requires multiset(base) == multiset(stored) + multiset(contextual)
    requires multiset(out) == Remainder(base, sub)[EMPTY := 0]
    ensures Elems(out) == (Elems(stored) + Elems(contextual) - Elems(sub) - {EMPTY}) + InAll(stored, contextual, sub)
  {
    forall v
      ensures v in Elems(out) <==>
                && v != EMPTY
                && (((v in stored || v in contextual) && v !in sub) || (v in stored && v in contextual && v in sub))
    {
      MergedCounts(stored, contextual, sub, base, v);
      assert v in out <==> v in multiset(out);
    }
  }

  /**
   An exclusion whose base is a leaf with contextual tuples. Besides the objects that are not subtracted it
   delivers those that are, if they are stored and contextual at once; so it is exact iff there are none.
   */
  method ExcludeFromLeaf(stored: seq<Id>, contextual: seq<Id>, sub: seq<Id>) returns (msgs: seq<Msg>)
    requires Ascending(stored) && Ascending(contextual) && Ascending(sub)
    ensures FailureOf(msgs) == DONE && NonDescending(Delivered(msgs))
    ensures Elems(Delivered(msgs)) ==
              (Elems(stored) + Elems(contextual) - Elems(sub) - {EMPTY}) + InAll(stored, contextual, sub)
    ensures Elems(Delivered(msgs)) == Elems(stored) + Elems(contextual) - Elems(sub) - {EMPTY} <==>
              InAll(stored, contextual, sub) == {}
  {
    var base := MergeContextual(stored, contextual);
    var iters := [Source(base, DONE), Source(sub, DONE)];
    assert Items(iters) == [base, sub];
    msgs := ResolveDifference(iters);
    LeafDifference(stored, contextual, sub, base, Delivered(msgs));
    NothingInAll(Elems(stored) + Elems(contextual) - Elems(sub) - {EMPTY}, InAll(stored, contextual, sub));
  }

  lemma NothingInAll(kept: set<Id>, more: set<Id>)
    requires kept !! more
    ensures kept + more == kept <==> more == {}
  {
    if x :| x in more {
      assert x in kept + more && x !in kept;
    }
  }

  /** An excluded object that is granted by a stored and by a contextual tuple is delivered. */
  method RepeatedTupleDefeatsExclusion(o: Id) returns (msgs: seq<Msg>)
    requires o != EMPTY
    ensures FailureOf(msgs) == DONE && Elems(Delivered(msgs)) == {o}
  {
    msgs := ExcludeFromLeaf([o], [o], [o]);
  }
}
