/**
 "Base but not one of several": a union goes on with its other operands after a read has failed, and reports the
 error at its end. A difference need not read what it subtracts to its end. So a failed read below a subtracted
 union can go unreported although what it missed should have been excluded.
 */
module FailedReads {
  import opened Ids
  import opened Sorted
  import opened Channels
  import opened BottomUp

  /** What is excluded in full. */
  ghost function Excluded(subs: seq<Source>, more: seq<seq<Id>>): set<Id>
    requires |more| == |subs|
  {
    Members(Extended(Items(subs), more))
  }

  /** Whatever the failed reads have missed, the ids put out are the base without what is excluded. */
  ghost predicate Conclusive(base: Source, subs: seq<Source>, out: seq<Id>) {
    forall more :: Missed(subs, more) ==> Elems(out) == Elems(base.items) - Excluded(subs, more) - {EMPTY}
  }

  /** An id of the base that no operand has yielded, and that an operand whose read failed may have missed. */
  ghost predicate MayBeMissed(base: Source, subs: seq<Source>, v: Id, j: nat) {
    && v in base.items && v != EMPTY && v !in Members(Items(subs))
    && j < |subs| && subs[j].err != DONE && forall x :: x in subs[j].items ==> x <= v
  }

  ghost predicate SomeMissed(base: Source, subs: seq<Source>) {
    exists v: Id, j: nat :: MayBeMissed(base, subs, v, j)
  }

  /** Some id of the base is above everything that the operands have yielded. */
  ghost predicate Outlasts(base: Source, subs: seq<Source>) {
    exists v :: v in base.items && forall u :: u in Members(Items(subs)) && u != EMPTY ==> u < v
  }

  predicate AllDone(subs: seq<Source>) {
    forall s :: s in subs ==> s.err == DONE
  }

  /** The base ends before the operands do, so that their errors are not reached. */
  ghost predicate HidesFailure(base: Source, subs: seq<Source>) {
    base.err == DONE && !Outlasts(base, subs) && SomeMissed(base, subs)
  }

  lemma BeyondIsOutlasting(base: seq<Id>, sub: seq<Id>)
    requires Ascending(base) && Ascending(sub)
    ensures Beyond(base, sub) <==> exists v :: v in base && forall u :: u in sub ==> u < v
  {
    if base != [] {
      LastIsGreatest(base);
      var b := base[|base| - 1];
      AscendingCounts(base, b);
      AscendingCounts(sub, b);
      if sub != [] {
        LastIsGreatest(sub);
        var s := sub[|sub| - 1];
        assert s < b ==> forall u :: u in sub ==> u < b;
        assert s in sub;
      }
    }
  }

  /** What a missed id has been added to. */
  lemma MissedMember(subs: seq<Source>, more: seq<seq<Id>>, w: Id)
    requires Missed(subs, more) && w in Excluded(subs, more) && w !in Members(Items(subs))
    ensures exists j :: 0 <= j < |subs| && subs[j].err != DONE && forall x :: x in subs[j].items ==> x <= w
  {
    var whole := Extended(Items(subs), more);
    var j :| 0 <= j < |whole| && w in whole[j];
    assert whole[j] == subs[j].items + more[j] && NonDescending(whole[j]);
    assert w !in subs[j].items by {
      assert Items(subs)[j] == subs[j].items;
    }
    assert w in more[j];
    var i :| 0 <= i < |more[j]| && more[j][i] == w;
    forall x | x in subs[j].items
      ensures x <= w
    {
      var k :| 0 <= k < |subs[j].items| && subs[j].items[k] == x;
      assert whole[j][k] == x && whole[j][|subs[j].items| + i] == w;
    }
  }

  lemma YieldedIsExcluded(subs: seq<Source>, more: seq<seq<Id>>)
    requires |more| == |subs|
    ensures Members(Items(subs)) <= Excluded(subs, more)
  {
    forall v | v in Members(Items(subs))
      ensures v in Excluded(subs, more)
    {
      var i :| 0 <= i < |subs| && v in Items(subs)[i];
      assert v in Extended(Items(subs), more)[i];
    }
  }

  lemma MissOne(subs: seq<Source>, v: Id, j: nat) returns (more: seq<seq<Id>>)
    requires AllNonDescending(Items(subs)) && j < |subs| && subs[j].err != DONE
    requires forall x :: x in subs[j].items ==> x <= v
    ensures Missed(subs, more) && v in Excluded(subs, more)
  {
    more := NoMore(|subs|)[j := [v]];
    var whole := Extended(Items(subs), more);
    forall i | 0 <= i < |subs|
      ensures NonDescending(whole[i])
    {
      assert NonDescending(Items(subs)[i]);
      if i == j {
        AppendKeepsOrder(subs[j].items, v);
      } else {
        assert whole[i] == Items(subs)[i];
      }
    }
    assert v in whole[j];
  }

  /** What was put out is conclusive exactly when no id of it may be one that was missed. */
  lemma ConclusiveIff(base: Source, subs: seq<Source>, out: seq<Id>)
    requires AllNonDescending(Items(subs)) && Elems(out) == Elems(base.items) - Members(Items(subs)) - {EMPTY}
    ensures Conclusive(base, subs, out) <==> !SomeMissed(base, subs)
  {
    if v: Id, j: nat :| MayBeMissed(base, subs, v, j) {
      var more := MissOne(subs, v, j);
      assert v in Elems(out) && v !in Elems(base.items) - Excluded(subs, more) - {EMPTY};
    } else {
      forall more | Missed(subs, more)
        ensures Elems(out) == Elems(base.items) - Excluded(subs, more) - {EMPTY}
      {
        YieldedIsExcluded(subs, more);
        forall w | w in Elems(out) && w in Excluded(subs, more)
          ensures SomeMissed(base, subs)
        {
          MissedMember(subs, more, w);
          var j :| 0 <= j < |subs| && subs[j].err != DONE && forall x :: x in subs[j].items ==> x <= w;
          assert MayBeMissed(base, subs, w, j);
        }
      }
    }
  }

  lemma OutlastsUnion(base: Source, subs: seq<Source>, sub: Source)
    requires Ascending(base.items) && Ascending(sub.items) && Elems(sub.items) == Members(Items(subs)) - {EMPTY}
    ensures Beyond(base.items, sub.items) <==> Outlasts(base, subs)
  {
    BeyondIsOutlasting(base.items, sub.items);
    assert forall u :: u in sub.items <==> u in Members(Items(subs)) && u != EMPTY by {
      assert forall u :: u in sub.items <==> u in Elems(sub.items);
    }
  }

  lemma Concludes(base: Source, subs: seq<Source>, sub: Source, src: Source)
    requires Ascending(base.items) && AllNonDescending(Items(subs)) && Ascending(sub.items)
    requires Elems(sub.items) == Members(Items(subs)) - {EMPTY} && (sub.err == DONE <==> AllDone(subs))
    requires src.err == if sub.err != DONE && Beyond(base.items, sub.items) then sub.err else base.err
    requires src.err == DONE ==> Elems(src.items) == Elems(base.items) - Elems(sub.items) - {EMPTY}
    ensures src.err == DONE <==> base.err == DONE && (AllDone(subs) || !Outlasts(base, subs))
    ensures src.err == DONE ==> Elems(src.items) == Elems(base.items) - Members(Items(subs)) - {EMPTY}
    ensures (src.err == DONE ==> Conclusive(base, subs, src.items)) <==> !HidesFailure(base, subs)
  {
    OutlastsUnion(base, subs, sub);
    if src.err == DONE {
      assert Elems(src.items) == Elems(base.items) - Members(Items(subs)) - {EMPTY};
      ConclusiveIff(base, subs, src.items);
    }
    if SomeMissed(base, subs) {
      var v: Id, j: nat :| MayBeMissed(base, subs, v, j);
      assert subs[j] in subs && !AllDone(subs);
    }
  }

  lemma InOrderAll(ss: seq<seq<Id>>)
    requires AllAscending(ss)
    ensures AllNonDescending(ss)
  {
    forall i | 0 <= i < |ss|
      ensures NonDescending(ss[i])
    {
      assert Ascending(ss[i]);
    }
  }

  /**
   The union of the operands, read through its channel, is subtracted from the base. An answer without an error is
   conclusive unless the failure is hidden, and a hidden failure always shows as an answer without an error.
   */
  method ExcludeUnion(base: Source, subs: seq<Source>) returns (msgs: seq<Msg>)
    requires Ascending(base.items) && AllAscending(Items(subs))
    ensures FailureOf(msgs) == DONE <==> base.err == DONE && (AllDone(subs) || !Outlasts(base, subs))
    ensures FailureOf(msgs) == DONE ==>
              Elems(Delivered(msgs)) == Elems(base.items) - Members(Items(subs)) - {EMPTY}
    ensures (FailureOf(msgs) == DONE ==> Conclusive(base, subs, Delivered(msgs))) <==> !HidesFailure(base, subs)
  {
    InOrderAll(Items(subs));
    var union := ResolveUnion(subs);
    var sub := ReadAll(union);
    msgs := Without(base, sub);
    Concludes(base, subs, sub, Source(Delivered(msgs), FailureOf(msgs)));
  }

  method Without(base: Source, sub: Source) returns (msgs: seq<Msg>)
    requires Ascending(base.items) && Ascending(sub.items)
    ensures FailureOf(msgs) == if sub.err != DONE && Beyond(base.items, sub.items) then sub.err else base.err
    ensures FailureOf(msgs) == DONE ==>
              Elems(Delivered(msgs)) == Elems(base.items) - Elems(sub.items) - {EMPTY}
  {
    var iters := [base, sub];
    assert Items(iters)[0] == base.items && Items(iters)[1] == sub.items;
    msgs := ResolveDifference(iters);
  }

  /** Object 3 is put out without an error, although the read that failed may have missed that it is excluded. */
  method FailureIsHidden() returns (msgs: seq<Msg>)
    ensures FailureOf(msgs) == DONE && Elems(Delivered(msgs)) == {3}
    ensures !Conclusive(Source([3, 5], DONE), [Source([1], 7), Source([5], DONE)], Delivered(msgs))
  {
    var base, subs := Source([3, 5], DONE), [Source([1], 7), Source([5], DONE)];
    assert Items(subs) == [[1], [5]];
    assert Members(Items(subs)) == {1, 5} by {
      assert 1 in Items(subs)[0] && 5 in Items(subs)[1];
    }
    assert MayBeMissed(base, subs, 3, 0);
    assert !Outlasts(base, subs);
    msgs := ExcludeUnion(base, subs);
    assert Elems(base.items) == {3, 5};
  }
}
