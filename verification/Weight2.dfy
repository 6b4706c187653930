/**
 The weight-2 join: does a stream of ids that the user reaches share a value with a stream of ids
 that the object reaches? The two sides arrive in any interleaving, the left one in chunks. When
 the right side is ordered, values that can no longer match are not remembered.
 */
module Weight2 {
  import opened Ids
  import opened Sorted
  import opened Channels
  import opened BottomUp

  datatype RightMsg = Val(id: Id) | Bad(code: ErrorCode)

  /** All values in the chunks; an error message does not end the left channel. */
  function LeftValues(msgs: seq<Msg>): seq<Id> {
    if msgs == [] then [] else (if msgs[0].Chunk? then msgs[0].items else []) + LeftValues(msgs[1..])
  }

  function RightValues(msgs: seq<RightMsg>): seq<Id> {
    if msgs == [] then [] else (if msgs[0].Val? then [msgs[0].id] else []) + RightValues(msgs[1..])
  }

  predicate AllValues(msgs: seq<RightMsg>) {
    forall m :: m in msgs ==> m.Val?
  }

  /** What one side remembers: `kept` of its values, and the latest one of those. */
  datatype Side = Side(kept: set<Id>, last: Id)

  /**
   The sides have received the values `L` and `R` and found no match among them. Each remembers
   something if it has received anything, and what it has forgotten lies below the other side.
   */
  ghost predicate NoMatchYet(L: set<Id>, l: Side, R: set<Id>, r: Side, pruning: bool) {
    L !! R && Remembers(L, l, r, pruning) && Remembers(R, r, l, pruning)
  }

  ghost predicate Remembers(M: set<Id>, mine: Side, other: Side, pruning: bool) {
    && mine.kept <= M && (M != {} ==> mine.kept != {})
    && (mine.last != EMPTY ==> mine.last in mine.kept)
    && (forall x :: x in M && x !in mine.kept ==> pruning && x < other.last)
  }

  /** The value is remembered unless both sides have moved and it is not above the other side's latest. */
  function Receive(mine: Side, other: Side, t: Id, pruning: bool): Side {
    if !pruning || mine.last == EMPTY || other.last == EMPTY || t > other.last
    then Side(mine.kept + {t}, t)
    else mine
  }

  /** Receiving a value that the other side does not remember finds no match and hides none. */
  lemma ReceiveKeeps(M: set<Id>, mine: Side, O: set<Id>, other: Side, t: Id, pruning: bool)
    requires NoMatchYet(M, mine, O, other, pruning) && t !in other.kept
    requires pruning ==> forall x :: x in M ==> x <= t
    ensures NoMatchYet(M + {t}, Receive(mine, other, t, pruning), O, other, pruning)
    ensures NoMatchYet(O, other, M + {t}, Receive(mine, other, t, pruning), pruning)
    // once both sides have moved, pruning remembers only what is above the other side's latest value
    ensures pruning && mine.last != EMPTY && other.last != EMPTY && t < other.last ==>
              Receive(mine, other, t, pruning) == mine
  {
  }

  /** `vals` are the values still to come of a side that has received `M` of `all`. */
  ghost predicate Pending(vals: seq<Id>, M: set<Id>, all: set<Id>, pruning: bool) {
    && M + Elems(vals) == all
    && (pruning ==> NonDescending(vals) && forall x, v :: x in M && v in vals ==> x <= v)
  }

  lemma TakeNext(vals: seq<Id>, M: set<Id>, all: set<Id>, pruning: bool)
    requires vals != [] && Pending(vals, M, all, pruning)
    ensures Pending(vals[1..], M + {vals[0]}, all, pruning)
    ensures vals[0] in all && (pruning ==> forall x :: x in M ==> x <= vals[0])
  {
    var t, rest := vals[0], vals[1..];
    assert Elems(vals) == {t} + Elems(rest) by {
      assert vals == [t] + rest;
    }
    assert (M + {t}) + Elems(rest) == all;
    if pruning {
      HeadIsLeast(vals);
      forall x, v | x in M + {t} && v in rest
        ensures x <= v
      {
        assert v in vals;
      }
    }
  }

  /** Reads one left chunk to its end, or up to a value that the right side remembers. */
  method ReceiveChunk(ghost L0: set<Id>, l0: Side, ghost R: set<Id>, r: Side, items: seq<Id>, pruning: bool,
                      ghost rest: seq<Id>, ghost all: set<Id>)
    returns (ghost L: set<Id>, l: Side, matched: bool)
    requires NoMatchYet(L0, l0, R, r, pruning) && Pending(items + rest, L0, all, pruning)
    ensures !matched ==> NoMatchYet(L, l, R, r, pruning) && Pending(rest, L, all, pruning)
    ensures matched ==> exists v :: v in all && v in R
  {
    L, l := L0, l0;
    for i := 0 to |items|
      invariant NoMatchYet(L, l, R, r, pruning) && Pending(items[i..] + rest, L, all, pruning)
    {
      var t := items[i];
      assert (items[i..] + rest)[1..] == items[i + 1..] + rest;
      TakeNext(items[i..] + rest, L, all, pruning);
      if t in r.kept {
        return L, l, true;
      }
      ReceiveKeeps(L, l, R, r, t, pruning);
      L, l := L + {t}, Receive(l, r, t, pruning);
    }
    assert items[|items|..] + rest == rest;
    matched := false;
  }

  /** A right value either matches what the left side remembers or is received. */
  method ReceiveRight(ghost L: set<Id>, l: Side, ghost R0: set<Id>, r0: Side, t: Id, pruning: bool,
                      ghost rest: seq<Id>, ghost all: set<Id>)
    returns (ghost R: set<Id>, r: Side, matched: bool)
    requires NoMatchYet(L, l, R0, r0, pruning) && Pending([t] + rest, R0, all, pruning)
    ensures !matched ==> NoMatchYet(L, l, R, r, pruning) && Pending(rest, R, all, pruning)
    ensures matched ==> exists v :: v in L && v in all
  {
    TakeNext([t] + rest, R0, all, pruning);
    assert ([t] + rest)[1..] == rest;
    if t in l.kept {
      return R0, r0, true;
    }
    ReceiveKeeps(R0, r0, L, l, t, pruning);
    R, r, matched := R0 + {t}, Receive(r0, l, t, pruning), false;
  }

  lemma AllReceived(M: set<Id>, all: set<Id>, pruning: bool)
    requires Pending([], M, all, pruning)
    ensures M == all
  {
  }

  lemma NothingShared(a: seq<Id>, b: seq<Id>)
    requires Elems(a) !! Elems(b)
    ensures !exists v :: v in a && v in b
  {
    forall v | v in a
      ensures v !in b
    {
      assert v in Elems(a);
    }
  }

  lemma NothingReceived(s: seq<Id>)
    ensures Elems(s) == {} ==> s == []
  {
    if s != [] {
      assert s[0] in Elems(s);
    }
  }

  method Execute(leftMsgs: seq<Msg>, rightMsgs: seq<RightMsg>, rightOrdered: bool) returns (allowed: bool, err: nat)
    requires rightOrdered ==> NonDescending(LeftValues(leftMsgs)) && NonDescending(RightValues(rightMsgs))
    ensures allowed <==> exists v :: v in LeftValues(leftMsgs) && v in RightValues(rightMsgs)
    ensures err != DONE ==> !allowed && (Failure(err) in leftMsgs || Bad(err) in rightMsgs)
    // a "no" conceals no error: both sides were read without one, or one was and has no values
    ensures !allowed && err == DONE ==>
              || (NoFailure(leftMsgs) && AllValues(rightMsgs))
              || (NoFailure(leftMsgs) && LeftValues(leftMsgs) == [])
              || (AllValues(rightMsgs) && RightValues(rightMsgs) == [])
  {
    ghost var left, right := Elems(LeftValues(leftMsgs)), Elems(RightValues(rightMsgs));
    ghost var L: set<Id>, R: set<Id> := {}, {};
    var l, r := Side({}, EMPTY), Side({}, EMPTY);
    var leftChan, rightChan := leftMsgs, rightMsgs;
    var leftOpen, rightOpen := true, true;
    err := DONE;
    while leftOpen || rightOpen
      invariant Pending(LeftValues(leftChan), L, left, rightOrdered)
      invariant Pending(RightValues(rightChan), R, right, rightOrdered)
      invariant !leftOpen ==> leftChan == []
      invariant !rightOpen ==> rightChan == []
      invariant forall m :: m in leftChan ==> m in leftMsgs
      invariant forall m :: m in rightChan ==> m in rightMsgs
      invariant NoMatchYet(L, l, R, r, rightOrdered)
      invariant err != DONE ==> Failure(err) in leftMsgs || Bad(err) in rightMsgs
      invariant err == DONE ==> forall m :: m in leftMsgs ==> m.Chunk? || m in leftChan
      invariant err == DONE ==> forall m :: m in rightMsgs ==> m.Val? || m in rightChan
      decreases |leftChan| + |rightChan|, leftOpen, rightOpen
    {
      // any channel that is ready may be selected
      var takeLeft: bool := *;
      if leftOpen && (takeLeft || !rightOpen) {
        if leftChan == [] {
          leftOpen := false;
          if l.kept == {} {
            AllReceived(L, left, rightOrdered);
            NothingShared(LeftValues(leftMsgs), RightValues(rightMsgs));
            NothingReceived(LeftValues(leftMsgs));
            return false, err;
          }
          continue;
        }
        var msg := leftChan[0];
        assert msg in leftChan;
        leftChan := leftChan[1..];
        if msg.Failure? {
          assert [] + LeftValues(leftChan) == LeftValues(leftChan);
          err := msg.code;
          continue;
        }
        var matched;
        L, l, matched := ReceiveChunk(L, l, R, r, msg.items, rightOrdered, LeftValues(leftChan), left);
        if matched {
          return true, DONE;
        }
      } else {
        if rightChan == [] {
          rightOpen := false;
          if r.kept == {} {
            AllReceived(R, right, rightOrdered);
            NothingShared(LeftValues(leftMsgs), RightValues(rightMsgs));
            NothingReceived(RightValues(rightMsgs));
            return false, err;
          }
          continue;
        }
        var msg := rightChan[0];
        assert msg in rightChan;
        rightChan := rightChan[1..];
        if msg.Bad? {
          assert [] + RightValues(rightChan) == RightValues(rightChan);
          err := msg.code;
          continue;
        }
        var matched;
        R, r, matched := ReceiveRight(L, l, R, r, msg.id, rightOrdered, RightValues(rightChan), right);
        if matched {
          return true, DONE;
        }
      }
    }
    AllReceived(L, left, rightOrdered);
    AllReceived(R, right, rightOrdered);
    NothingShared(LeftValues(leftMsgs), RightValues(rightMsgs));
    return false, err;
  }
}
