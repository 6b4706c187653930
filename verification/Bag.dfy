/**
 The lock-free bag: a linked list with an atomic head. Adding links private cells in front of the
 head that was loaded and publishes them with a compare-and-swap; draining swaps the head for nil.
 The concrete machine works on cells and references, its specification on the log of insertions, in
 the order in which they took effect.
 */
module Bag {

  type Ref = nat

  type Value = nat

  const NIL: Ref := 0

  datatype Cell = Cell(value: Value, next: Ref)

  datatype Phase = Ready | Loaded(seen: Ref) | Linked(seen: Ref)

  /** An `Add` in progress: its newest cell, its oldest cell and what it has done so far. */
  datatype AddOp = AddOp(first: Ref, last: Ref, phase: Phase)

  /** Cells are numbered as they are allocated; `drains` holds the position of each iterator. */
  datatype State = State(cells: map<Ref, Cell>, free: Ref, head: Ref, adds: map<nat, AddOp>, drains: map<nat, Ref>)

  /** `Break` yields a value to a loop that stops there; `Yield` to one that goes on. */
  datatype Step =
    | Prepare(op: nat, values: seq<Value>)
    | Load(op: nat)
    | Link(op: nat)
    | Swap(op: nat)
    | Drain(drain: nat)
    | Yield(drain: nat)
    | Break(drain: nat)
    | Clear

  function Initial(): State {
    State(map[], 1, NIL, map[], map[])
  }

  predicate Enabled(s: State, step: Step) {
    match step
    case Prepare(op, values) => op !in s.adds && values != []
    case Load(op) => op in s.adds && s.adds[op].phase.Ready?
    case Link(op) => op in s.adds && s.adds[op].phase.Loaded? && s.adds[op].last in s.cells
    case Swap(op) => op in s.adds && s.adds[op].phase.Linked?
    case Drain(d) => d !in s.drains
    case Yield(d) => d in s.drains && s.drains[d] != NIL && s.drains[d] in s.cells
    case Break(d) => d in s.drains && s.drains[d] != NIL && s.drains[d] in s.cells
    case Clear => true
  }

  /** The cells of one call: each value in front of the one before it. */
  function Built(free: Ref, values: seq<Value>): map<Ref, Cell>
    decreases |values|
  {
    if values == [] then map[]
    else
      var n := |values| - 1;
      Built(free, values[..n])[free + n := Cell(values[n], if n == 0 then NIL else free + n - 1)]
  }

  lemma {:induction false} BuiltCells(free: Ref, values: seq<Value>)
    ensures forall r: Ref :: r in Built(free, values) <==> free <= r < free + |values|
    ensures forall r: Ref :: r in Built(free, values) ==>
                               && Built(free, values)[r].value == values[r - free]
                               && (r > free ==> Built(free, values)[r].next == r - 1)
    decreases |values|
  {
    if values != [] {
      BuiltCells(free, values[..|values| - 1]);
    }
  }

  lemma BuiltOneMore(free: Ref, values: seq<Value>, i: nat)
    requires i < |values|
    ensures Built(free, values[..i + 1])
         == Built(free, values[..i])[free + i := Cell(values[i], if i == 0 then NIL else free + i - 1)]
  {
    assert values[..i + 1][..i] == values[..i];
  }

  /** The loop that builds them. */
  method Build(free: Ref, values: seq<Value>) returns (cells: map<Ref, Cell>, first: Ref, last: Ref)
    requires values != [] && free != NIL
    ensures cells == Built(free, values) && last == free && first == free + |values| - 1
  {
    cells, first, last := map[], NIL, NIL;
    for i := 0 to |values|
      invariant cells == Built(free, values[..i])
      invariant if i == 0 then first == NIL else last == free && first == free + i - 1
    {
      var n := free + i;
      BuiltOneMore(free, values, i);
      cells := cells[n := Cell(values[i], first)];
      if first == NIL {
        last := n;
      }
      first := n;
    }
    assert values[..|values|] == values;
  }

  function Apply(s: State, step: Step): State
    requires Enabled(s, step)
  {
    match step
    case Prepare(op, values) =>
      var first := s.free + |values| - 1;
      s.(cells := s.cells + Built(s.free, values), free := first + 1, adds := s.adds[op := AddOp(first, s.free, Ready)])
    case Load(op) => s.(adds := s.adds[op := s.adds[op].(phase := Loaded(s.head))])
    case Link(op) =>
      var a := s.adds[op];
      s.(cells := s.cells[a.last := s.cells[a.last].(next := a.phase.seen)],
         adds := s.adds[op := a.(phase := Linked(a.phase.seen))])
    case Swap(op) =>
      var a := s.adds[op];
      if s.head == a.phase.seen then s.(head := a.first, adds := s.adds - {op})
      else s.(adds := s.adds[op := a.(phase := Ready)])
    case Drain(d) => s.(head := NIL, drains := s.drains[d := s.head])
    case Yield(d) => s.(drains := s.drains[d := s.cells[s.drains[d]].next])
    case Break(_) => s
    case Clear => s.(head := NIL)
  }

  // ---------------------------------------------------------------- specification

  /** A drain takes the log positions of one window and yields them from the latest on. */
  datatype Window = Window(from: nat, to: nat, yielded: nat)

  /** The log of insertions. The bag holds what follows the mark, where it was last emptied. */
  datatype Spec = Spec(log: seq<Value>, mark: nat, pending: map<nat, seq<Value>>,
                       drains: map<nat, Window>, cleared: set<Window>)

  function SpecInitial(): Spec {
    Spec([], 0, map[], map[], {})
  }

  function Reverse(s: seq<Value>): (r: seq<Value>)
    ensures |r| == |s| && forall i :: 0 <= i < |s| ==> r[i] == s[|s| - 1 - i]
  {
    seq(|s|, i requires 0 <= i < |s| => s[|s| - 1 - i])
  }

  ghost predicate WindowOk(mark: nat, w: Window) {
    w.from + w.yielded <= w.to <= mark
  }

  predicate Within(w: Window, p: nat) {
    w.from <= p < w.to
  }

  predicate Disjoint(v: Window, w: Window) {
    v.to <= w.from || w.to <= v.from
  }

  /** Windows lie before the mark, and no two drains share a position. */
  ghost predicate SpecOk(sp: Spec) {
    && sp.mark <= |sp.log|
    && (forall d :: d in sp.drains ==> WindowOk(sp.mark, sp.drains[d]))
    && (forall d, e :: d in sp.drains && e in sp.drains && d != e ==> Disjoint(sp.drains[d], sp.drains[e]))
  }

  /** What the bag holds, latest insertion first. */
  ghost function Contents(sp: Spec): seq<Value>
    requires SpecOk(sp)
  {
    Reverse(sp.log[sp.mark..])
  }

  /** What a drain has yet to yield. */
  ghost function Left(log: seq<Value>, w: Window): seq<Value>
    requires WindowOk(|log|, w)
  {
    Reverse(log[w.from..w.to - w.yielded])
  }

  function Yielded(w: Window): Window {
    w.(yielded := w.yielded + 1)
  }

  /** A successful compare-and-swap appends the call's values to the log; emptying moves the mark. */
  function SpecApply(s: State, sp: Spec, step: Step): Spec
    requires Enabled(s, step)
  {
    match step
    case Prepare(op, values) => sp.(pending := sp.pending[op := values])
    case Swap(op) =>
      if s.head == s.adds[op].phase.seen && op in sp.pending
      then sp.(log := sp.log + sp.pending[op], pending := sp.pending - {op}) else sp
    case Drain(d) => sp.(mark := |sp.log|, drains := sp.drains[d := Window(sp.mark, |sp.log|, 0)])
    case Yield(d) => if d in sp.drains then sp.(drains := sp.drains[d := Yielded(sp.drains[d])]) else sp
    case Clear => sp.(mark := |sp.log|, cleared := sp.cleared + {Window(sp.mark, |sp.log|, 0)})
    case _ => sp
  }

  // ---------------------------------------------------------------- refinement

  predicate Owns(a: AddOp, r: Ref) {
    a.last <= r <= a.first
  }

  /** Allocated, and not private to an `Add` in progress. */
  ghost predicate Published(s: State, r: Ref) {
    r in s.cells && forall op :: op in s.adds ==> !Owns(s.adds[op], r)
  }

  /** The published list from `r` carries exactly these values. */
  ghost predicate Carries(s: State, r: Ref, vs: seq<Value>)
    decreases |vs|
  {
    if vs == [] then r == NIL
    else Published(s, r) && r != NIL && s.cells[r].value == vs[0] && Carries(s, s.cells[r].next, vs[1..])
  }

  /** A private cell holds its value and leads to the cell before it. */
  ghost predicate CellOk(cells: map<Ref, Cell>, a: AddOp, values: seq<Value>, r: Ref)
    requires |values| == a.first - a.last + 1
  {
    Owns(a, r) ==> r in cells && cells[r].value == values[r - a.last] && (r > a.last ==> cells[r].next == r - 1)
  }

  ghost predicate AddOk(cells: map<Ref, Cell>, free: Ref, a: AddOp, values: seq<Value>) {
    && NIL < a.last <= a.first < free && |values| == a.first - a.last + 1
    && (forall r: Ref :: CellOk(cells, a, values, r))
    && (a.phase.Linked? ==> a.last in cells && cells[a.last].next == a.phase.seen)
  }

  predicate Apart(a: AddOp, b: AddOp) {
    a.first < b.last || b.first < a.last
  }

  /** The cells and the calls in progress: each call owns its cells, and they hold its values. */
  ghost predicate Layout(s: State, pending: map<nat, seq<Value>>) {
    && s.adds.Keys == pending.Keys
    && NIL < s.free && (forall r :: r in s.cells ==> NIL < r < s.free)
    && (forall op :: op in s.adds ==> AddOk(s.cells, s.free, s.adds[op], pending[op]))
    && (forall op, other :: op in s.adds && other in s.adds && op != other ==> Apart(s.adds[op], s.adds[other]))
  }

  /** The list from the head and those of the drains carry what the specification says. */
  ghost predicate Lists(s: State, sp: Spec)
    requires SpecOk(sp)
  {
    && s.drains.Keys == sp.drains.Keys
    && Carries(s, s.head, Contents(sp))
    && (forall d :: d in s.drains ==> Carries(s, s.drains[d], Left(sp.log, sp.drains[d])))
  }

  ghost predicate Refines(s: State, sp: Spec) {
    SpecOk(sp) && Layout(s, sp.pending) && Lists(s, sp)
  }

  lemma {:induction false} CarriesFrame(s: State, s': State, r: Ref, vs: seq<Value>)
    requires Carries(s, r, vs)
    requires forall x :: Published(s, x) ==> Published(s', x) && s'.cells[x] == s.cells[x]
    ensures Carries(s', r, vs)
    decreases |vs|
  {
    if vs != [] {
      CarriesFrame(s, s', s.cells[r].next, vs[1..]);
    }
  }

  /** No step touches a published cell or takes it back. */
  lemma StepKeepsPublished(s: State, pending: map<nat, seq<Value>>, step: Step, x: Ref)
    requires Layout(s, pending) && Enabled(s, step) && Published(s, x)
    ensures Published(Apply(s, step), x) && Apply(s, step).cells[x] == s.cells[x]
  {
    if step.Link? {
      assert Owns(s.adds[step.op], s.adds[step.op].last);
    } else if step.Prepare? {
      BuiltCells(s.free, step.values);
    }
  }

  lemma StepKeepsCarries(s: State, pending: map<nat, seq<Value>>, step: Step, r: Ref, vs: seq<Value>)
    requires Layout(s, pending) && Enabled(s, step) && Carries(s, r, vs)
    ensures Carries(Apply(s, step), r, vs)
  {
    forall x | Published(s, x)
      ensures Published(Apply(s, step), x) && Apply(s, step).cells[x] == s.cells[x]
    {
      StepKeepsPublished(s, pending, step, x);
    }
    CarriesFrame(s, Apply(s, step), r, vs);
  }

  /** A call's cells stay as they are while no other call's cells are touched. */
  lemma AddFrame(cells: map<Ref, Cell>, free: Ref, cells': map<Ref, Cell>, free': Ref, a: AddOp, values: seq<Value>)
    requires AddOk(cells, free, a, values) && free <= free'
    requires forall r: Ref :: Owns(a, r) && r in cells ==> r in cells' && cells'[r] == cells[r]
    ensures AddOk(cells', free', a, values)
  {
    assert CellOk(cells, a, values, a.last);
    forall r: Ref
      ensures CellOk(cells', a, values, r)
    {
      assert CellOk(cells, a, values, r);
    }
  }

  lemma BuiltIsOk(cells: map<Ref, Cell>, free: Ref, values: seq<Value>)
    requires NIL < free && values != []
    ensures AddOk(cells + Built(free, values), free + |values|, AddOp(free + |values| - 1, free, Ready), values)
  {
    BuiltCells(free, values);
  }

  lemma PrepareKeepsAdd(cells: map<Ref, Cell>, free: Ref, values: seq<Value>, a: AddOp, mine: seq<Value>)
    requires AddOk(cells, free, a, mine)
    ensures AddOk(cells + Built(free, values), free + |values|, a, mine)
  {
    BuiltCells(free, values);
    AddFrame(cells, free, cells + Built(free, values), free + |values|, a, mine);
  }

  lemma PrepareKeepsLayout(s: State, pending: map<nat, seq<Value>>, op: nat, values: seq<Value>)
    requires Layout(s, pending) && Enabled(s, Prepare(op, values))
    ensures Layout(Apply(s, Prepare(op, values)), pending[op := values])
  {
    var s' := Apply(s, Prepare(op, values));
    BuiltIsOk(s.cells, s.free, values);
    assert s'.adds[op] == AddOp(s.free + |values| - 1, s.free, Ready) && s'.free == s.free + |values|;
    forall o | o in s.adds
      ensures AddOk(s'.cells, s'.free, s.adds[o], pending[o])
    {
      PrepareKeepsAdd(s.cells, s.free, values, s.adds[o], pending[o]);
    }
    forall r: Ref | r in s'.cells
      ensures NIL < r < s'.free
    {
      BuiltCells(s.free, values);
    }
  }

  lemma LinkKeepsAdd(cells: map<Ref, Cell>, cells': map<Ref, Cell>, free: Ref, a: AddOp, a': AddOp,
                     values: seq<Value>, seen: Ref)
    requires AddOk(cells, free, a, values) && a.last in cells
    requires cells' == cells[a.last := cells[a.last].(next := seen)] && a' == a.(phase := Linked(seen))
    ensures AddOk(cells', free, a', values)
  {
    forall r: Ref
      ensures CellOk(cells', a', values, r)
    {
      assert CellOk(cells, a, values, r);
    }
  }

  lemma LinkKeepsLayout(s: State, pending: map<nat, seq<Value>>, op: nat)
    requires Layout(s, pending) && Enabled(s, Link(op))
    ensures Layout(Apply(s, Link(op)), pending)
  {
    var s', a := Apply(s, Link(op)), s.adds[op];
    forall o | o in s.adds
      ensures AddOk(s'.cells, s'.free, s'.adds[o], pending[o])
    {
      if o == op {
        LinkKeepsAdd(s.cells, s'.cells, s.free, a, s'.adds[op], pending[op], a.phase.seen);
      } else {
        assert Apart(s.adds[o], a);
        AddFrame(s.cells, s.free, s'.cells, s'.free, s.adds[o], pending[o]);
      }
    }
  }

  lemma PhaseKeepsAdd(cells: map<Ref, Cell>, free: Ref, a: AddOp, a': AddOp, values: seq<Value>)
    requires AddOk(cells, free, a, values) && a' == a.(phase := a'.phase) && !a'.phase.Linked?
    ensures AddOk(cells, free, a', values)
  {
    forall r: Ref
      ensures CellOk(cells, a', values, r)
    {
      assert CellOk(cells, a, values, r);
    }
  }

  /** Loading the head, or failing to swap it, changes the phase of one call. */
  lemma PhaseKeepsLayout(s: State, s': State, pending: map<nat, seq<Value>>, op: nat, a': AddOp)
    requires Layout(s, pending) && op in s.adds && a' == s.adds[op].(phase := a'.phase) && !a'.phase.Linked?
    requires s' == s.(adds := s.adds[op := a'])
    ensures Layout(s', pending)
  {
    PhaseKeepsAdd(s.cells, s.free, s.adds[op], a', pending[op]);
    forall o | o in s.adds
      ensures AddOk(s'.cells, s'.free, s'.adds[o], pending[o])
    {
    }
  }

  lemma SwapKeepsLayout(s: State, s': State, pending: map<nat, seq<Value>>, op: nat)
    requires Layout(s, pending) && op in s.adds
    requires s'.cells == s.cells && s'.free == s.free && s'.adds == s.adds - {op}
    ensures Layout(s', pending - {op})
  {
  }

  /** The private cells of a linked call, once published, put its values in front of the list. */
  lemma {:induction false} LinkedCarries(s: State, a: AddOp, values: seq<Value>, k: nat, vs: seq<Value>)
    requires AddOk(s.cells, s.free, a, values) && k < |values|
    requires a.last in s.cells && Carries(s, s.cells[a.last].next, vs)
    requires forall r :: Owns(a, r) ==> Published(s, r)
    ensures Carries(s, a.last + k, Reverse(values[..k + 1]) + vs)
    decreases k
  {
    var r := a.last + k;
    var all := Reverse(values[..k + 1]) + vs;
    assert CellOk(s.cells, a, values, r) && Owns(a, r) && all[0] == values[k];
    if k == 0 {
      assert all[1..] == vs;
    } else {
      LinkedCarries(s, a, values, k - 1, vs);
      assert all[1..] == Reverse(values[..k]) + vs;
    }
  }

  lemma SwapPublishes(s: State, pending: map<nat, seq<Value>>, op: nat, vs: seq<Value>)
    requires Layout(s, pending) && Enabled(s, Swap(op)) && s.head == s.adds[op].phase.seen && Carries(s, s.head, vs)
    ensures Carries(Apply(s, Swap(op)), s.adds[op].first, Reverse(pending[op]) + vs)
  {
    var s', a, values := Apply(s, Swap(op)), s.adds[op], pending[op];
    forall r: Ref | Owns(a, r)
      ensures Published(s', r)
    {
      assert CellOk(s.cells, a, values, r);
    }
    StepKeepsCarries(s, pending, Swap(op), s.head, vs);
    LinkedCarries(s', a, values, |values| - 1, vs);
    assert values[..|values|] == values;
  }

  // ---------------------------------------------------------------- the specification's own steps

  lemma LeftUnchanged(log: seq<Value>, more: seq<Value>, w: Window)
    requires WindowOk(|log|, w)
    ensures Left(log + more, w) == Left(log, w)
  {
  }

  lemma AppendContents(log: seq<Value>, mark: nat, values: seq<Value>)
    requires mark <= |log|
    ensures Reverse((log + values)[mark..]) == Reverse(values) + Reverse(log[mark..])
  {
  }

  lemma LeftAfterYield(log: seq<Value>, w: Window)
    requires WindowOk(|log|, w) && w.from + w.yielded < w.to
    ensures WindowOk(|log|, Yielded(w)) && Left(log, Yielded(w)) == Left(log, w)[1..]
  {
  }

  // ---------------------------------------------------------------- every step refines

  lemma StepKeepsLayout(s: State, sp: Spec, step: Step)
    requires SpecOk(sp) && Layout(s, sp.pending) && Enabled(s, step)
    ensures Layout(Apply(s, step), SpecApply(s, sp, step).pending)
  {
    var s' := Apply(s, step);
    match step
    case Prepare(op, values) => PrepareKeepsLayout(s, sp.pending, op, values);
    case Link(op) => LinkKeepsLayout(s, sp.pending, op);
    case Load(op) => PhaseKeepsLayout(s, s', sp.pending, op, s'.adds[op]);
    case Swap(op) =>
      if s.head == s.adds[op].phase.seen {
        SwapKeepsLayout(s, s', sp.pending, op);
      } else {
        PhaseKeepsLayout(s, s', sp.pending, op, s'.adds[op]);
      }
    case _ =>
  }

  /** The position in the log that a drain is at. */
  function Cursor(w: Window): int {
    w.to - 1 - w.yielded
  }

  /** A drain that is not at the end has values left, and its next one is the latest of them. */
  lemma CursorIsLatest(s: State, log: seq<Value>, r: Ref, w: Window)
    requires WindowOk(|log|, w) && Carries(s, r, Left(log, w))
    ensures r == NIL <==> w.from + w.yielded == w.to
    ensures r != NIL ==> r in s.cells && 0 <= w.from <= Cursor(w) < |log| && s.cells[r].value == log[Cursor(w)]
  {
    var left := Left(log, w);
    assert |left| == w.to - w.yielded - w.from;
    if left != [] {
      assert left[0] == log[Cursor(w)];
    }
  }

  lemma YieldHasLeft(s: State, sp: Spec, d: nat)
    requires SpecOk(sp) && Lists(s, sp) && d in s.drains && s.drains[d] != NIL
    ensures sp.drains[d].from + sp.drains[d].yielded < sp.drains[d].to && s.drains[d] in s.cells
  {
    assert Carries(s, s.drains[d], Left(sp.log, sp.drains[d]));
    CursorIsLatest(s, sp.log, s.drains[d], sp.drains[d]);
  }

  lemma DrainKeepsSpec(sp: Spec, d: nat, w: Window)
    requires SpecOk(sp) && WindowOk(|sp.log|, w)
    requires if d in sp.drains then w == Yielded(sp.drains[d]) && w.to <= sp.mark else w.from == sp.mark
    ensures SpecOk(sp.(mark := if d in sp.drains then sp.mark else |sp.log|, drains := sp.drains[d := w]))
  {
  }

  lemma StepKeepsSpec(s: State, sp: Spec, step: Step)
    requires SpecOk(sp) && Lists(s, sp) && Enabled(s, step)
    ensures SpecOk(SpecApply(s, sp, step))
  {
    if step.Yield? {
      YieldHasLeft(s, sp, step.drain);
      DrainKeepsSpec(sp, step.drain, Yielded(sp.drains[step.drain]));
    } else if step.Drain? {
      DrainKeepsSpec(sp, step.drain, Window(sp.mark, |sp.log|, 0));
    } else {
      assert SpecApply(s, sp, step).drains == sp.drains;
    }
  }

  lemma HeadCarries(s: State, sp: Spec, step: Step)
    requires Refines(s, sp) && Enabled(s, step) && SpecOk(SpecApply(s, sp, step))
    ensures Carries(Apply(s, step), Apply(s, step).head, Contents(SpecApply(s, sp, step)))
  {
    if step.Swap? && s.head == s.adds[step.op].phase.seen {
      SwapPublishes(s, sp.pending, step.op, Contents(sp));
      AppendContents(sp.log, sp.mark, sp.pending[step.op]);
    } else if step.Drain? || step.Clear? {
      assert Contents(SpecApply(s, sp, step)) == [];
    } else {
      StepKeepsCarries(s, sp.pending, step, s.head, Contents(sp));
    }
  }

  lemma OldDrainCarries(s: State, sp: Spec, step: Step, d: nat)
    requires Refines(s, sp) && Enabled(s, step) && SpecOk(SpecApply(s, sp, step))
    requires d in s.drains && step != Yield(d)
    ensures Carries(Apply(s, step), s.drains[d], Left(SpecApply(s, sp, step).log, sp.drains[d]))
  {
    var w := sp.drains[d];
    StepKeepsCarries(s, sp.pending, step, s.drains[d], Left(sp.log, w));
    if step.Swap? && s.head == s.adds[step.op].phase.seen {
      LeftUnchanged(sp.log, sp.pending[step.op], w);
    }
  }

  lemma YieldCarries(s: State, sp: Spec, d: nat)
    requires Refines(s, sp) && Enabled(s, Yield(d)) && d in sp.drains
    ensures WindowOk(|sp.log|, Yielded(sp.drains[d]))
    ensures Carries(Apply(s, Yield(d)), s.cells[s.drains[d]].next, Left(sp.log, Yielded(sp.drains[d])))
  {
    var w := sp.drains[d];
    YieldHasLeft(s, sp, d);
    LeftAfterYield(sp.log, w);
    StepKeepsCarries(s, sp.pending, Yield(d), s.drains[d], Left(sp.log, w));
  }

  lemma NewDrainCarries(s: State, sp: Spec, d: nat)
    requires Refines(s, sp) && Enabled(s, Drain(d))
    ensures Carries(Apply(s, Drain(d)), s.head, Left(sp.log, Window(sp.mark, |sp.log|, 0)))
  {
    StepKeepsCarries(s, sp.pending, Drain(d), s.head, Contents(sp));
    assert sp.log[sp.mark..|sp.log|] == sp.log[sp.mark..];
  }

  lemma DrainsCarry(s: State, sp: Spec, step: Step, d: nat)
    requires Refines(s, sp) && Enabled(s, step) && SpecOk(SpecApply(s, sp, step)) && d in Apply(s, step).drains
    ensures d in SpecApply(s, sp, step).drains
    ensures Carries(Apply(s, step), Apply(s, step).drains[d],
                    Left(SpecApply(s, sp, step).log, SpecApply(s, sp, step).drains[d]))
  {
    if step == Yield(d) {
      YieldCarries(s, sp, d);
    } else if step == Drain(d) {
      NewDrainCarries(s, sp, d);
    } else {
      OldDrainCarries(s, sp, step, d);
    }
  }

  /** Every step of the machine is a step of the specification, or none. */
  lemma StepRefines(s: State, sp: Spec, step: Step)
    requires Refines(s, sp) && Enabled(s, step)
    ensures Refines(Apply(s, step), SpecApply(s, sp, step))
  {
    StepKeepsSpec(s, sp, step);
    StepKeepsLayout(s, sp, step);
    HeadCarries(s, sp, step);
    forall d | d in Apply(s, step).drains
      ensures d in SpecApply(s, sp, step).drains
      ensures Carries(Apply(s, step), Apply(s, step).drains[d],
                      Left(SpecApply(s, sp, step).log, SpecApply(s, sp, step).drains[d]))
    {
      DrainsCarry(s, sp, step, d);
    }
  }

  // ---------------------------------------------------------------- whole runs

  ghost predicate Run(s: State, steps: seq<Step>, s': State)
    decreases |steps|
  {
    if steps == [] then s' == s else Enabled(s, steps[0]) && Run(Apply(s, steps[0]), steps[1..], s')
  }

  /** The specification's state after the same steps. */
  ghost function SpecAfter(s: State, sp: Spec, steps: seq<Step>, s': State): Spec
    requires Run(s, steps, s')
    decreases |steps|
  {
    if steps == [] then sp else SpecAfter(Apply(s, steps[0]), SpecApply(s, sp, steps[0]), steps[1..], s')
  }

  lemma {:induction false} RunRefines(s: State, sp: Spec, steps: seq<Step>, s': State)
    requires Refines(s, sp) && Tiled(sp) && Run(s, steps, s')
    ensures Refines(s', SpecAfter(s, sp, steps, s')) && Tiled(SpecAfter(s, sp, steps, s'))
    decreases |steps|
  {
    if steps != [] {
      StepRefines(s, sp, steps[0]);
      StepKeepsTiled(s, sp, steps[0]);
      RunRefines(Apply(s, steps[0]), SpecApply(s, sp, steps[0]), steps[1..], s');
    }
  }

  ghost predicate Drained(sp: Spec, p: nat) {
    exists d :: d in sp.drains && Within(sp.drains[d], p)
  }

  ghost predicate Cleared(sp: Spec, p: nat) {
    exists w :: w in sp.cleared && Within(w, p)
  }

  /** Every position before the mark went to a drain or to a `Clear`, never to both. */
  ghost predicate Tiled(sp: Spec) {
    && (forall p: nat :: p < sp.mark ==> (Drained(sp, p) <==> !Cleared(sp, p)))
    && (forall p: nat :: sp.mark <= p ==> !Drained(sp, p) && !Cleared(sp, p))
  }

  lemma StepKeepsDrained(s: State, sp: Spec, step: Step, p: nat)
    requires Enabled(s, step) && (step.Drain? ==> step.drain !in sp.drains)
    ensures Drained(SpecApply(s, sp, step), p) <==> Drained(sp, p) || (step.Drain? && sp.mark <= p < |sp.log|)
  {
    var sp' := SpecApply(s, sp, step);
    if d :| d in sp.drains && Within(sp.drains[d], p) {
      assert d in sp'.drains && Within(sp'.drains[d], p);
    }
    if d :| d in sp'.drains && Within(sp'.drains[d], p) {
      assert d in sp.drains ==> Within(sp.drains[d], p);
    }
    if step.Drain? && sp.mark <= p < |sp.log| {
      assert step.drain in sp'.drains && Within(sp'.drains[step.drain], p);
    }
  }

  lemma StepKeepsCleared(s: State, sp: Spec, step: Step, p: nat)
    requires Enabled(s, step)
    ensures Cleared(SpecApply(s, sp, step), p) <==> Cleared(sp, p) || (step.Clear? && sp.mark <= p < |sp.log|)
  {
  }

  lemma StepKeepsTiled(s: State, sp: Spec, step: Step)
    requires Refines(s, sp) && Tiled(sp) && Enabled(s, step)
    ensures Tiled(SpecApply(s, sp, step))
  {
    forall p: nat
      ensures p < SpecApply(s, sp, step).mark ==>
                (Drained(SpecApply(s, sp, step), p) <==> !Cleared(SpecApply(s, sp, step), p))
      ensures SpecApply(s, sp, step).mark <= p ==>
                !Drained(SpecApply(s, sp, step), p) && !Cleared(SpecApply(s, sp, step), p)
    {
      StepKeepsDrained(s, sp, step, p);
      StepKeepsCleared(s, sp, step, p);
      assert p < sp.mark || sp.mark <= p;
    }
  }

  lemma InitialRefines()
    ensures Refines(Initial(), SpecInitial()) && Tiled(SpecInitial())
  {
  }

  /** In every run, a value inserted is in the bag, or it went to one drain, or it was cleared. */
  lemma NothingLost(steps: seq<Step>, s: State, p: nat)
    requires Run(Initial(), steps, s)
    ensures var sp := SpecAfter(Initial(), SpecInitial(), steps, s);
            p < |sp.log| ==> (p >= sp.mark || Drained(sp, p) || Cleared(sp, p))
    ensures var sp := SpecAfter(Initial(), SpecInitial(), steps, s);
            SpecOk(sp) && Carries(s, s.head, Contents(sp))
  {
    InitialRefines();
    RunRefines(Initial(), SpecInitial(), steps, s);
  }
}
