/**
 What the drains of a bag hand out along a whole run. A loop that goes on moves the iterator; a loop that
 breaks off has received the value too, but the iterator stays, so a later loop receives it again.
 */
module BagDrains {
  import opened Bag

  /** A value handed to a loop over the drain, and whether the loop went on. */
  datatype Hand = Hand(value: Value, moved: bool)

  predicate HandsOut(step: Step, d: nat) {
    step == Yield(d) || step == Break(d)
  }

  /** Everything that drain `d` hands out along the run, in order. */
  ghost function Handed(s: State, steps: seq<Step>, s': State, d: nat): seq<Hand>
    requires Run(s, steps, s')
    decreases |steps|
  {
    if steps == [] then []
    else
      var rest := Handed(Apply(s, steps[0]), steps[1..], s', d);
      if HandsOut(steps[0], d) then [Hand(s.cells[s.drains[d]].value, steps[0].Yield?)] + rest else rest
  }

  /** The log positions of the hands, when the first one is at `p`. */
  function Positions(hands: seq<Hand>, p: int): (ps: seq<int>)
    ensures |ps| == |hands|
    decreases |hands|
  {
    if hands == [] then [] else [p] + Positions(hands[1..], if hands[0].moved then p - 1 else p)
  }

  function Moves(hands: seq<Hand>): nat {
    if hands == [] then 0 else (if hands[0].moved then 1 else 0) + Moves(hands[1..])
  }

  /** The hands carry the values of the log from position `p` downwards, down to `low` at most. */
  ghost predicate Follow(log: seq<Value>, hands: seq<Hand>, p: int, low: int)
    decreases |hands|
  {
    hands != [] ==>
      && 0 <= low <= p < |log| && hands[0].value == log[p]
      && Follow(log, hands[1..], if hands[0].moved then p - 1 else p, low)
  }

  /** A step leaves the window of a drain that is open; only `Yield` moves it. */
  lemma StepKeepsWindow(s: State, sp: Spec, step: Step, d: nat)
    requires s.drains.Keys == sp.drains.Keys && Enabled(s, step) && d in sp.drains
    ensures d in SpecApply(s, sp, step).drains && sp.log <= SpecApply(s, sp, step).log
    ensures SpecApply(s, sp, step).drains[d] == if step == Yield(d) then Yielded(sp.drains[d]) else sp.drains[d]
  {
  }

  /** The position that a drain starts from. */
  function StartOf(w: Window): int {
    Cursor(w.(yielded := 0))
  }

  /** From the window `w` the drain has handed out `hands`, which leaves it at `w'`. */
  ghost predicate Ran(log: seq<Value>, w: Window, hands: seq<Hand>, w': Window) {
    Follow(log, hands, Cursor(w), w.from) && w' == w.(yielded := w.yielded + Moves(hands))
  }

  lemma RanOne(log: seq<Value>, w: Window, hand: Hand, rest: seq<Hand>, w': Window)
    requires Ran(log, if hand.moved then Yielded(w) else w, rest, w')
    requires 0 <= w.from <= Cursor(w) < |log| && hand.value == log[Cursor(w)]
    ensures Ran(log, w, [hand] + rest, w')
  {
    var hands := [hand] + rest;
    assert hands[1..] == rest;
  }

  /** What the drain hands out next is the latest value of its window that it has not moved past. */
  lemma NextHand(s: State, sp: Spec, d: nat)
    requires SpecOk(sp) && Lists(s, sp) && d in s.drains && s.drains[d] != NIL && s.drains[d] in s.cells
    ensures d in sp.drains && 0 <= sp.drains[d].from <= Cursor(sp.drains[d]) < |sp.log|
    ensures s.cells[s.drains[d]].value == sp.log[Cursor(sp.drains[d])]
  {
    assert WindowOk(sp.mark, sp.drains[d]) && Carries(s, s.drains[d], Left(sp.log, sp.drains[d]));
    CursorIsLatest(s, sp.log, s.drains[d], sp.drains[d]);
  }

  lemma {:induction false} LogGrows(s: State, sp: Spec, steps: seq<Step>, s': State)
    requires Run(s, steps, s')
    ensures sp.log <= SpecAfter(s, sp, steps, s').log
    decreases |steps|
  {
    if steps != [] {
      LogGrows(Apply(s, steps[0]), SpecApply(s, sp, steps[0]), steps[1..], s');
    }
  }

  lemma OpenHand(s: State, sp: Spec, step: Step, d: nat, log: seq<Value>, rest: seq<Hand>, w': Window)
    requires Refines(s, sp) && Enabled(s, step) && HandsOut(step, d) && sp.log <= log && d in sp.drains
    requires Ran(log, if step.Yield? then Yielded(sp.drains[d]) else sp.drains[d], rest, w')
    ensures Ran(log, sp.drains[d], [Hand(s.cells[s.drains[d]].value, step.Yield?)] + rest, w')
  {
    NextHand(s, sp, d);
    RanOne(log, sp.drains[d], Hand(s.cells[s.drains[d]].value, step.Yield?), rest, w');
  }

  /** An open drain hands out its window from where it stands. */
  lemma {:induction false} OpenDrain(s: State, sp: Spec, steps: seq<Step>, s': State, d: nat)
    requires Refines(s, sp) && Run(s, steps, s') && d in sp.drains
    ensures d in SpecAfter(s, sp, steps, s').drains
    ensures Ran(SpecAfter(s, sp, steps, s').log, sp.drains[d], Handed(s, steps, s', d),
                SpecAfter(s, sp, steps, s').drains[d])
    decreases |steps|
  {
    if steps != [] {
      StepRefines(s, sp, steps[0]);
      StepKeepsWindow(s, sp, steps[0], d);
      var s1, sp1 := Apply(s, steps[0]), SpecApply(s, sp, steps[0]);
      OpenDrain(s1, sp1, steps[1..], s', d);
      var sp', rest := SpecAfter(s, sp, steps, s'), Handed(s1, steps[1..], s', d);
      assert Ran(sp'.log, sp1.drains[d], rest, sp'.drains[d]);
      if HandsOut(steps[0], d) {
        LogGrows(s, sp, steps, s');
        OpenHand(s, sp, steps[0], d, sp'.log, rest, sp'.drains[d]);
      }
    }
  }

  lemma ClosedStep(s: State, sp: Spec, step: Step, d: nat)
    requires s.drains.Keys == sp.drains.Keys && Enabled(s, step) && d !in sp.drains
    ensures !HandsOut(step, d) && (step != Drain(d) ==> d !in SpecApply(s, sp, step).drains)
    ensures step == Drain(d) ==>
              d in SpecApply(s, sp, step).drains && SpecApply(s, sp, step).drains[d].yielded == 0
  {
    assert d !in s.drains;
  }

  lemma OpenedDrain(s: State, sp: Spec, steps: seq<Step>, s': State, d: nat)
    requires Refines(s, sp) && Run(s, steps, s') && d in sp.drains && sp.drains[d].yielded == 0
    ensures d in SpecAfter(s, sp, steps, s').drains
    ensures HandedWindow(SpecAfter(s, sp, steps, s'), d, Handed(s, steps, s', d))
  {
    OpenDrain(s, sp, steps, s', d);
    assert sp.drains[d] == SpecAfter(s, sp, steps, s').drains[d].(yielded := 0);
  }

  /** A drain that is opened during the run hands out its window from the latest insertion on. */
  lemma {:induction false} ClosedDrain(s: State, sp: Spec, steps: seq<Step>, s': State, d: nat)
    requires Refines(s, sp) && Run(s, steps, s') && d !in sp.drains
    ensures d !in SpecAfter(s, sp, steps, s').drains ==> Handed(s, steps, s', d) == []
    ensures d in SpecAfter(s, sp, steps, s').drains ==>
              HandedWindow(SpecAfter(s, sp, steps, s'), d, Handed(s, steps, s', d))
    decreases |steps|
  {
    if steps != [] {
      StepRefines(s, sp, steps[0]);
      ClosedStep(s, sp, steps[0], d);
      if steps[0] == Drain(d) {
        OpenedDrain(Apply(s, steps[0]), SpecApply(s, sp, steps[0]), steps[1..], s', d);
      } else {
        ClosedDrain(Apply(s, steps[0]), SpecApply(s, sp, steps[0]), steps[1..], s', d);
      }
    }
  }

  /** The hands start at the end of the drain's window and have moved as far as the drain has. */
  ghost predicate HandedWindow(sp: Spec, d: nat, hands: seq<Hand>)
    requires d in sp.drains
  {
    Ran(sp.log, sp.drains[d].(yielded := 0), hands, sp.drains[d])
  }

  // ---------------------------------------------------------------- hands and positions

  lemma {:induction false} HandAt(log: seq<Value>, hands: seq<Hand>, p: int, low: int, i: nat)
    requires Follow(log, hands, p, low) && i < |hands|
    ensures 0 <= low <= Positions(hands, p)[i] <= p < |log| && hands[i].value == log[Positions(hands, p)[i]]
    decreases i
  {
    if i > 0 {
      HandAt(log, hands[1..], if hands[0].moved then p - 1 else p, low, i - 1);
    }
  }

  lemma {:induction false} AllMoved(hands: seq<Hand>, p: int, i: nat)
    requires i < |hands| && forall h :: h in hands ==> h.moved
    ensures Positions(hands, p)[i] == p - i && Moves(hands) == |hands|
    decreases |hands|
  {
    if i > 0 {
      AllMoved(hands[1..], p - 1, i - 1);
    } else if |hands| > 1 {
      AllMoved(hands[1..], p - 1, 0);
    }
  }

  /** Positions never rise, and two hands are at the same one iff no loop went on between them. */
  lemma {:induction false} SamePosition(hands: seq<Hand>, p: int, i: nat, j: nat)
    requires i < j < |hands|
    ensures Positions(hands, p)[j] <= Positions(hands, p)[i]
    ensures Positions(hands, p)[i] == Positions(hands, p)[j] <==> forall k :: i <= k < j ==> !hands[k].moved
    decreases i, j
  {
    var q := if hands[0].moved then p - 1 else p;
    if i > 0 {
      SamePosition(hands[1..], q, i - 1, j - 1);
      assert forall k :: i - 1 <= k < j - 1 ==> hands[1..][k] == hands[k + 1];
    } else if j == 1 {
      assert Positions(hands, p)[1] == Positions(hands[1..], q)[0];
    } else {
      SamePosition(hands[1..], q, 0, j - 1);
      assert forall k :: 0 <= k < j - 1 ==> hands[1..][k] == hands[k + 1];
    }
  }

  /** As far as the loops have gone on, every position has been handed out. */
  lemma {:induction false} PassedPositions(hands: seq<Hand>, p: int, q: int)
    requires p - Moves(hands) < q <= p
    ensures q in Positions(hands, p)
    decreases |hands|
  {
    if hands == [] {
      assert false;
    } else if q < p {
      PassedPositions(hands[1..], if hands[0].moved then p - 1 else p, q);
    }
  }

  // ---------------------------------------------------------------- whole runs from an empty bag

  /** The specification's state at the end of a run from the empty bag. */
  ghost function End(steps: seq<Step>, s: State): Spec
    requires Run(Initial(), steps, s)
  {
    SpecAfter(Initial(), SpecInitial(), steps, s)
  }

  ghost function Hands(steps: seq<Step>, s: State, d: nat): seq<Hand>
    requires Run(Initial(), steps, s)
  {
    Handed(Initial(), steps, s, d)
  }

  /** Where the drain is in the log each time it hands out a value, along the run. */
  ghost function Spots(s: State, sp: Spec, steps: seq<Step>, s': State, d: nat): seq<int>
    requires Run(s, steps, s')
    decreases |steps|
  {
    if steps == [] then []
    else
      var rest := Spots(Apply(s, steps[0]), SpecApply(s, sp, steps[0]), steps[1..], s', d);
      if HandsOut(steps[0], d) && d in sp.drains then [Cursor(sp.drains[d])] + rest else rest
  }

  lemma SpotOne(w: Window, hand: Hand, rest: seq<Hand>, spots: seq<int>)
    requires spots == Positions(rest, Cursor(if hand.moved then Yielded(w) else w))
    ensures [Cursor(w)] + spots == Positions([hand] + rest, Cursor(w))
  {
    assert ([hand] + rest)[1..] == rest;
  }

  lemma {:induction false} OpenSpots(s: State, sp: Spec, steps: seq<Step>, s': State, d: nat)
    requires Refines(s, sp) && Run(s, steps, s') && d in sp.drains
    ensures Spots(s, sp, steps, s', d) == Positions(Handed(s, steps, s', d), Cursor(sp.drains[d]))
    decreases |steps|
  {
    if steps != [] {
      StepRefines(s, sp, steps[0]);
      StepKeepsWindow(s, sp, steps[0], d);
      var s1, sp1 := Apply(s, steps[0]), SpecApply(s, sp, steps[0]);
      OpenSpots(s1, sp1, steps[1..], s', d);
      if HandsOut(steps[0], d) {
        var hand := Hand(s.cells[s.drains[d]].value, steps[0].Yield?);
        SpotOne(sp.drains[d], hand, Handed(s1, steps[1..], s', d), Spots(s1, sp1, steps[1..], s', d));
      }
    }
  }

  lemma OpenedSpots(s: State, sp: Spec, steps: seq<Step>, s': State, d: nat)
    requires Refines(s, sp) && Run(s, steps, s') && d in sp.drains && sp.drains[d].yielded == 0
    ensures d in SpecAfter(s, sp, steps, s').drains
    ensures Spots(s, sp, steps, s', d) ==
              Positions(Handed(s, steps, s', d), StartOf(SpecAfter(s, sp, steps, s').drains[d]))
  {
    OpenSpots(s, sp, steps, s', d);
    OpenDrain(s, sp, steps, s', d);
    assert sp.drains[d] == SpecAfter(s, sp, steps, s').drains[d].(yielded := 0);
  }

  /** Where a drain is opened during the run, its first spot is the end of its window. */
  lemma {:induction false} ClosedSpots(s: State, sp: Spec, steps: seq<Step>, s': State, d: nat)
    requires Refines(s, sp) && Run(s, steps, s') && d !in sp.drains
    ensures d !in SpecAfter(s, sp, steps, s').drains ==> Spots(s, sp, steps, s', d) == []
    ensures d in SpecAfter(s, sp, steps, s').drains ==>
              Spots(s, sp, steps, s', d) ==
                Positions(Handed(s, steps, s', d), StartOf(SpecAfter(s, sp, steps, s').drains[d]))
    decreases |steps|
  {
    if steps != [] {
      StepRefines(s, sp, steps[0]);
      ClosedStep(s, sp, steps[0], d);
      var s1, sp1 := Apply(s, steps[0]), SpecApply(s, sp, steps[0]);
      if steps[0] == Drain(d) {
        OpenedSpots(s1, sp1, steps[1..], s', d);
      } else {
        ClosedSpots(s1, sp1, steps[1..], s', d);
      }
    }
  }

  /** The log positions at which the drain stood when it handed out its values. */
  ghost function HandPositions(steps: seq<Step>, s: State, d: nat): seq<int>
    requires Run(Initial(), steps, s)
  {
    Spots(Initial(), SpecInitial(), steps, s, d)
  }

  /** They are the ones that the breaks determine. */
  lemma SpotsArePositions(steps: seq<Step>, s: State, d: nat) returns (p: int)
    requires Run(Initial(), steps, s)
    ensures HandPositions(steps, s, d) == Positions(Hands(steps, s, d), p)
    ensures d in End(steps, s).drains ==> p == StartOf(End(steps, s).drains[d])
  {
    InitialRefines();
    ClosedSpots(Initial(), SpecInitial(), steps, s, d);
    ClosedDrain(Initial(), SpecInitial(), steps, s, d);
    p := if d in End(steps, s).drains then StartOf(End(steps, s).drains[d]) else 0;
  }

  lemma EndIsOk(steps: seq<Step>, s: State)
    requires Run(Initial(), steps, s)
    ensures SpecOk(End(steps, s)) && Lists(s, End(steps, s))
  {
    InitialRefines();
    RunRefines(Initial(), SpecInitial(), steps, s);
  }

  /** The hands follow the window from its end and have moved as far as the drain has. */
  ghost predicate Traced(log: seq<Value>, w: Window, hands: seq<Hand>) {
    WindowOk(|log|, w) && Ran(log, w.(yielded := 0), hands, w)
  }

  lemma DrainIsTraced(steps: seq<Step>, s: State, d: nat)
    requires Run(Initial(), steps, s)
    ensures Hands(steps, s, d) != [] ==> d in End(steps, s).drains
    ensures d in End(steps, s).drains ==> Traced(End(steps, s).log, End(steps, s).drains[d], Hands(steps, s, d))
  {
    EndIsOk(steps, s);
    InitialRefines();
    ClosedDrain(Initial(), SpecInitial(), steps, s, d);
  }

  /** In every run, each hand carries the value inserted at its position, and positions fall or stay. */
  lemma HandsFollowLog(steps: seq<Step>, s: State, d: nat, i: nat)
    requires Run(Initial(), steps, s) && i < |Hands(steps, s, d)|
    ensures d in End(steps, s).drains && |HandPositions(steps, s, d)| == |Hands(steps, s, d)|
    ensures var p, w := HandPositions(steps, s, d)[i], End(steps, s).drains[d];
            && 0 <= w.from <= p < w.to && p < |End(steps, s).log| && Hands(steps, s, d)[i].value == End(steps, s).log[p]
  {
    DrainIsTraced(steps, s, d);
    var p := SpotsArePositions(steps, s, d);
    HandAt(End(steps, s).log, Hands(steps, s, d), p, End(steps, s).drains[d].from, i);
  }

  /** In every run, a position is handed out again iff each loop that received it before broke off at it. */
  lemma RepeatIffBreaks(steps: seq<Step>, s: State, d: nat, i: nat, j: nat)
    requires Run(Initial(), steps, s) && i < j < |Hands(steps, s, d)|
    ensures |HandPositions(steps, s, d)| == |Hands(steps, s, d)|
    ensures HandPositions(steps, s, d)[j] <= HandPositions(steps, s, d)[i]
    ensures HandPositions(steps, s, d)[i] == HandPositions(steps, s, d)[j] <==>
              forall k :: i <= k < j ==> !Hands(steps, s, d)[k].moved
  {
    var p := SpotsArePositions(steps, s, d);
    SamePosition(Hands(steps, s, d), p, i, j);
  }

  ghost predicate SomeRepeat(ps: seq<int>) {
    exists i, j :: 0 <= i < j < |ps| && ps[i] == ps[j]
  }

  /** A drain hands out some position twice iff a break was followed by another hand. */
  lemma RepeatsIffResumed(steps: seq<Step>, s: State, d: nat)
    requires Run(Initial(), steps, s)
    ensures SomeRepeat(HandPositions(steps, s, d)) <==>
              exists i :: 0 <= i < |Hands(steps, s, d)| - 1 && !Hands(steps, s, d)[i].moved
  {
    var ps, hands := HandPositions(steps, s, d), Hands(steps, s, d);
    var p := SpotsArePositions(steps, s, d);
    if SomeRepeat(ps) {
      var i, j :| 0 <= i < j < |ps| && ps[i] == ps[j];
      RepeatIffBreaks(steps, s, d, i, j);
      assert !hands[i].moved;
    }
    if i :| 0 <= i < |hands| - 1 && !hands[i].moved {
      RepeatIffBreaks(steps, s, d, i, i + 1);
      assert ps[i] == ps[i + 1];
    }
  }

  /** Two drains never hand out the same position. */
  lemma DrainsAreApart(steps: seq<Step>, s: State, d: nat, e: nat, i: nat, j: nat)
    requires Run(Initial(), steps, s) && d != e && i < |Hands(steps, s, d)| && j < |Hands(steps, s, e)|
    ensures |HandPositions(steps, s, d)| == |Hands(steps, s, d)| && |HandPositions(steps, s, e)| == |Hands(steps, s, e)|
    ensures HandPositions(steps, s, d)[i] != HandPositions(steps, s, e)[j]
  {
    HandsFollowLog(steps, s, d, i);
    HandsFollowLog(steps, s, e, j);
    EndIsOk(steps, s);
    assert Disjoint(End(steps, s).drains[d], End(steps, s).drains[e]);
  }

  /** A drain at its end has handed out every position of its window. */
  lemma EndedDrainIsWhole(steps: seq<Step>, s: State, d: nat, p: int)
    requires Run(Initial(), steps, s) && d in s.drains && s.drains[d] == NIL
    ensures d in End(steps, s).drains
    ensures End(steps, s).drains[d].from <= p < End(steps, s).drains[d].to ==> p in HandPositions(steps, s, d)
  {
    EndIsOk(steps, s);
    DrainIsTraced(steps, s, d);
    var sp := End(steps, s);
    CursorIsLatest(s, sp.log, s.drains[d], sp.drains[d]);
    var q := SpotsArePositions(steps, s, d);
    if sp.drains[d].from <= p < sp.drains[d].to {
      PassedPositions(Hands(steps, s, d), q, p);
    }
  }

  function Values(hands: seq<Hand>): (vs: seq<Value>)
    ensures |vs| == |hands| && forall i :: 0 <= i < |hands| ==> vs[i] == hands[i].value
  {
    seq(|hands|, i requires 0 <= i < |hands| => hands[i].value)
  }

  lemma UnbrokenHand(log: seq<Value>, w: Window, hands: seq<Hand>, i: nat)
    requires Traced(log, w, hands) && (forall h :: h in hands ==> h.moved) && i < |hands|
    ensures |hands| == w.yielded && i < w.to - w.from && hands[i].value == Reverse(log[w.from..w.to])[i]
  {
    AllMoved(hands, StartOf(w), i);
    HandAt(log, hands, StartOf(w), w.from, i);
    assert log[w.from..w.to][w.to - w.from - 1 - i] == log[w.to - 1 - i];
  }

  lemma UnbrokenFollow(log: seq<Value>, w: Window, hands: seq<Hand>)
    requires Traced(log, w, hands) && forall h :: h in hands ==> h.moved
    ensures |hands| == w.yielded && Values(hands) <= Reverse(log[w.from..w.to])
  {
    var all := Reverse(log[w.from..w.to]);
    forall i | 0 <= i < |hands|
      ensures i < |all| && Values(hands)[i] == all[i]
    {
      UnbrokenHand(log, w, hands, i);
    }
    if hands != [] {
      UnbrokenHand(log, w, hands, 0);
    }
  }

  /** What the drain hands out is a beginning of its window in reverse order, and all of that once it is at its end. */
  ghost predicate ReversesWindow(s: State, sp: Spec, d: nat, hands: seq<Hand>)
    requires d in s.drains && d in sp.drains && WindowOk(|sp.log|, sp.drains[d])
  {
    var window := Reverse(sp.log[sp.drains[d].from..sp.drains[d].to]);
    Values(hands) <= window && (s.drains[d] == NIL ==> Values(hands) == window)
  }

  /** In every run a drain whose loops never break off hands out its window, latest insertion first. */
  lemma UnbrokenDrainReverses(steps: seq<Step>, s: State, d: nat)
    requires Run(Initial(), steps, s) && d in s.drains && forall h :: h in Hands(steps, s, d) ==> h.moved
    ensures d in End(steps, s).drains && WindowOk(|End(steps, s).log|, End(steps, s).drains[d])
    ensures ReversesWindow(s, End(steps, s), d, Hands(steps, s, d))
  {
    EndIsOk(steps, s);
    DrainIsTraced(steps, s, d);
    UnbrokenReverses(s, End(steps, s), d, Hands(steps, s, d));
  }

  lemma UnbrokenReverses(s: State, sp: Spec, d: nat, hands: seq<Hand>)
    requires SpecOk(sp) && Lists(s, sp) && d in s.drains && Traced(sp.log, sp.drains[d], hands)
    requires forall h :: h in hands ==> h.moved
    ensures ReversesWindow(s, sp, d, hands)
  {
    UnbrokenFollow(sp.log, sp.drains[d], hands);
    CursorIsLatest(s, sp.log, s.drains[d], sp.drains[d]);
  }

  // ---------------------------------------------------------------- a loop that breaks off

  ghost predicate Leads(s: State, steps: seq<Step>, s': State, hands: seq<Hand>) {
    Run(s, steps, s') && Handed(s, steps, s', 0) == hands
  }

  lemma LeadsOn(s: State, step: Step, t: State, steps: seq<Step>, s': State, hands: seq<Hand>)
    requires Enabled(s, step) && t == Apply(s, step) && Leads(t, steps, s', hands)
    ensures Leads(s, [step] + steps, s',
                  (if HandsOut(step, 0) then [Hand(s.cells[s.drains[0]].value, step.Yield?)] else []) + hands)
  {
    assert ([step] + steps)[1..] == steps;
  }

  lemma QuietStart(s: State, step: Step, t: State, steps: seq<Step>, s': State, hands: seq<Hand>)
    requires Enabled(s, step) && t == Apply(s, step) && Leads(t, steps, s', hands) && !HandsOut(step, 0)
    ensures Leads(s, [step] + steps, s', hands)
  {
    LeadsOn(s, step, t, steps, s', hands);
    assert [] + hands == hands;
  }

  /** A value was added to the empty bag and drained. */
  function OneDrained(v: Value): State {
    State(map[1 := Cell(v, NIL)], 2, NIL, map[], map[0 := 1])
  }

  /** The states on the way there. */
  function Adding(v: Value, phase: Phase): State {
    State(map[1 := Cell(v, NIL)], 2, NIL, map[0 := AddOp(1, 1, phase)], map[])
  }

  lemma AddOne(v: Value)
    ensures Apply(Initial(), Prepare(0, [v])) == Adding(v, Ready)
    ensures Apply(Adding(v, Ready), Load(0)) == Adding(v, Loaded(NIL))
  {
    BuiltCells(1, [v]);
    assert Built(1, [v]) == map[1 := Cell(v, NIL)];
  }

  lemma PublishOne(v: Value)
    ensures Apply(Adding(v, Loaded(NIL)), Link(0)) == Adding(v, Linked(NIL))
    ensures Apply(Adding(v, Linked(NIL)), Swap(0)) == State(map[1 := Cell(v, NIL)], 2, 1, map[], map[])
    ensures Apply(State(map[1 := Cell(v, NIL)], 2, 1, map[], map[]), Drain(0)) == OneDrained(v)
  {
  }

  lemma OneDrainedIsReached(v: Value, tail: seq<Step>, s: State, hands: seq<Hand>) returns (steps: seq<Step>)
    requires Leads(OneDrained(v), tail, s, hands)
    ensures Leads(Initial(), steps, s, hands)
  {
    AddOne(v);
    PublishOne(v);
    var full := State(map[1 := Cell(v, NIL)], 2, 1, map[], map[]);
    QuietStart(full, Drain(0), OneDrained(v), tail, s, hands);
    steps := [Drain(0)] + tail;
    QuietStart(Adding(v, Linked(NIL)), Swap(0), full, steps, s, hands);
    steps := [Swap(0)] + steps;
    QuietStart(Adding(v, Loaded(NIL)), Link(0), Adding(v, Linked(NIL)), steps, s, hands);
    steps := [Link(0)] + steps;
    QuietStart(Adding(v, Ready), Load(0), Adding(v, Loaded(NIL)), steps, s, hands);
    steps := [Load(0)] + steps;
    QuietStart(Initial(), Prepare(0, [v]), Adding(v, Ready), steps, s, hands);
    steps := [Prepare(0, [v])] + steps;
  }

  /** One value is added and drained; the first loop breaks off at it, and the next one receives it again. */
  lemma BrokenOffIsRepeated(v: Value) returns (steps: seq<Step>, s: State)
    ensures Run(Initial(), steps, s) && Hands(steps, s, 0) == [Hand(v, false), Hand(v, true)]
  {
    var s0 := OneDrained(v);
    s := Apply(s0, Yield(0));
    assert Leads(s, [], s, []);
    LeadsOn(s0, Yield(0), s, [], s, []);
    assert [Hand(v, true)] + [] == [Hand(v, true)];
    LeadsOn(s0, Break(0), s0, [Yield(0)] + [], s, [Hand(v, true)]);
    assert [Hand(v, false)] + [Hand(v, true)] == [Hand(v, false), Hand(v, true)];
    steps := OneDrainedIsReached(v, [Break(0)] + ([Yield(0)] + []), s, [Hand(v, false), Hand(v, true)]);
  }
}
