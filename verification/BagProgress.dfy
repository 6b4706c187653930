/** That the bag is lock-free: whatever the others have done, a call that runs alone comes to its end. */
module BagProgress {
  import opened Bag

  /** A step of the call in progress, past its preparation. */
  predicate OfAdd(step: Step, op: nat) {
    step == Load(op) || step == Link(op) || step == Swap(op)
  }

  lemma RunThen(s: State, step: Step, steps: seq<Step>, s': State, sp: Spec)
    requires Enabled(s, step) && Run(Apply(s, step), steps, s')
    ensures Run(s, [step] + steps, s')
    ensures SpecAfter(s, sp, [step] + steps, s') == SpecAfter(Apply(s, step), SpecApply(s, sp, step), steps, s')
  {
    assert ([step] + steps)[1..] == steps;
  }

  lemma OwnsLast(s: State, sp: Spec, op: nat)
    requires Refines(s, sp) && op in s.adds
    ensures op in sp.pending && s.adds[op].last in s.cells
  {
    assert AddOk(s.cells, s.free, s.adds[op], sp.pending[op]);
    assert CellOk(s.cells, s.adds[op], sp.pending[op], s.adds[op].last);
  }

  /** From the moment the call has read the head, two steps of its own publish its values. */
  lemma LoadedCompletes(s: State, sp: Spec, op: nat) returns (steps: seq<Step>, s': State)
    requires Refines(s, sp) && op in s.adds && s.adds[op].phase == Loaded(s.head)
    ensures |steps| == 2 && (forall x :: x in steps ==> OfAdd(x, op)) && Run(s, steps, s') && op !in s'.adds
    ensures op in sp.pending && SpecAfter(s, sp, steps, s').log == sp.log + sp.pending[op]
  {
    OwnsLast(s, sp, op);
    var s1 := Apply(s, Link(op));
    s' := Apply(s1, Swap(op));
    RunThen(s1, Swap(op), [], s', SpecApply(s, sp, Link(op)));
    RunThen(s, Link(op), [Swap(op)], s', sp);
    steps := [Link(op)] + ([Swap(op)] + []);
    assert [Swap(op)] + [] == [Swap(op)];
  }

  lemma ReadyCompletes(s: State, sp: Spec, op: nat) returns (steps: seq<Step>, s': State)
    requires Refines(s, sp) && op in s.adds && s.adds[op].phase == Ready
    ensures |steps| == 3 && (forall x :: x in steps ==> OfAdd(x, op)) && Run(s, steps, s') && op !in s'.adds
    ensures op in sp.pending && SpecAfter(s, sp, steps, s').log == sp.log + sp.pending[op]
  {
    StepRefines(s, sp, Load(op));
    var rest;
    rest, s' := LoadedCompletes(Apply(s, Load(op)), SpecApply(s, sp, Load(op)), op);
    RunThen(s, Load(op), rest, s', sp);
    steps := [Load(op)] + rest;
  }

  /** A compare-and-swap that fails has seen another head than the one it meets, and the call starts over. */
  lemma SwapCompletes(s: State, sp: Spec, op: nat) returns (steps: seq<Step>, s': State)
    requires Refines(s, sp) && op in s.adds && s.adds[op].phase.Linked?
    ensures |steps| == if s.head == s.adds[op].phase.seen then 1 else 4
    ensures (forall x :: x in steps ==> OfAdd(x, op)) && Run(s, steps, s') && op !in s'.adds
    ensures op in sp.pending && SpecAfter(s, sp, steps, s').log == sp.log + sp.pending[op]
  {
    OwnsLast(s, sp, op);
    var s1, sp1 := Apply(s, Swap(op)), SpecApply(s, sp, Swap(op));
    if s.head == s.adds[op].phase.seen {
      s' := s1;
      RunThen(s, Swap(op), [], s', sp);
      steps := [Swap(op)] + [];
    } else {
      StepRefines(s, sp, Swap(op));
      var rest;
      rest, s' := ReadyCompletes(s1, sp1, op);
      RunThen(s, Swap(op), rest, s', sp);
      steps := [Swap(op)] + rest;
    }
  }

  /** A stale head is carried to the compare-and-swap, which then fails. */
  lemma StaleCompletes(s: State, sp: Spec, op: nat) returns (steps: seq<Step>, s': State)
    requires Refines(s, sp) && op in s.adds && s.adds[op].phase.Loaded?
    ensures |steps| <= 5 && (forall x :: x in steps ==> OfAdd(x, op)) && Run(s, steps, s') && op !in s'.adds
    ensures op in sp.pending && SpecAfter(s, sp, steps, s').log == sp.log + sp.pending[op]
  {
    OwnsLast(s, sp, op);
    StepRefines(s, sp, Link(op));
    var rest;
    rest, s' := SwapCompletes(Apply(s, Link(op)), SpecApply(s, sp, Link(op)), op);
    RunThen(s, Link(op), rest, s', sp);
    steps := [Link(op)] + rest;
  }

  /** In every reachable state, five steps of its own are enough for a call to publish its values. */
  lemma AddCompletes(before: seq<Step>, s: State, op: nat) returns (steps: seq<Step>, s': State)
    requires Run(Initial(), before, s) && op in s.adds
    ensures |steps| <= 5 && (forall x :: x in steps ==> OfAdd(x, op)) && Run(s, steps, s') && op !in s'.adds
    ensures var sp := SpecAfter(Initial(), SpecInitial(), before, s);
            op in sp.pending && SpecAfter(s, sp, steps, s').log == sp.log + sp.pending[op]
  {
    InitialRefines();
    RunRefines(Initial(), SpecInitial(), before, s);
    var sp := SpecAfter(Initial(), SpecInitial(), before, s);
    match s.adds[op].phase
    case Ready => steps, s' := ReadyCompletes(s, sp, op);
    case Loaded(_) => steps, s' := StaleCompletes(s, sp, op);
    case Linked(_) => steps, s' := SwapCompletes(s, sp, op);
  }

  /** How many values the drain has yet to yield. */
  function Unread(w: Window): int {
    w.to - w.from - w.yielded
  }

  lemma DrainHasLeft(s: State, sp: Spec, d: nat)
    requires Refines(s, sp) && d in s.drains
    ensures d in sp.drains && |Left(sp.log, sp.drains[d])| == Unread(sp.drains[d])
    ensures if Unread(sp.drains[d]) == 0 then s.drains[d] == NIL else Enabled(s, Yield(d))
  {
    assert Carries(s, s.drains[d], Left(sp.log, sp.drains[d]));
  }

  lemma YieldTakesOne(s: State, sp: Spec, d: nat)
    requires Enabled(s, Yield(d)) && d in sp.drains
    ensures var s', sp' := Apply(s, Yield(d)), SpecApply(s, sp, Yield(d));
            && d in s'.drains && s'.head == s.head
            && d in sp'.drains && Unread(sp'.drains[d]) == Unread(sp.drains[d]) - 1
  {
  }

  /** A drain that goes on alone yields all that it has left, and is then at its end. */
  lemma {:induction false} DrainCompletes(s: State, sp: Spec, d: nat, n: nat) returns (steps: seq<Step>, s': State)
    requires Refines(s, sp) && d in s.drains && d in sp.drains && n == Unread(sp.drains[d])
    ensures |steps| == n && (forall x :: x in steps ==> x == Yield(d))
    ensures Run(s, steps, s') && d in s'.drains && s'.drains[d] == NIL && s'.head == s.head
    decreases n
  {
    DrainHasLeft(s, sp, d);
    steps, s' := [], s;
    if n > 0 {
      YieldTakesOne(s, sp, d);
      StepRefines(s, sp, Yield(d));
      steps, s' := DrainCompletes(Apply(s, Yield(d)), SpecApply(s, sp, Yield(d)), d, n - 1);
      RunThen(s, Yield(d), steps, s', sp);
      steps := [Yield(d)] + steps;
    }
  }
}
