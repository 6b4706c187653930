/**
 The v2 recursive search. Workers share one map of visited ids. A worker reads the tuples of one id;
 each tuple passes the visited filter, which claims its target, and then the condition filter. A
 target that survives both is compared with the ids that the user reaches and, failing that, is
 handed to a new worker. The search is a state machine over these actions, and its runs are all the
 interleavings of them.
 */
module WorkSharing {
  import opened Reachability

  /** A tuple: the id it leads to and whether its condition holds. */
  datatype Edge = Edge(target: Node, accepted: bool)

  /** The tuples of every id, and the seeds: the first successors of the object. */
  datatype Data = Data(tuples: map<Node, set<Edge>>, seeds: set<Node>)

  /** `base` holds the ids that the user reaches; only an unreliable store may fail a read. */
  datatype Config = Config(data: Data, base: set<Node>, reliable: bool)

  function Edges(d: Data, x: Node): set<Edge> {
    if x in d.tuples then d.tuples[x] else {}
  }

  /** The successors that the tuples with a true condition give. */
  function Accepted(d: Data): Graph {
    map x | x in d.tuples :: set e | e in d.tuples[x] && e.accepted :: e.target
  }

  ghost function AllEdges(d: Data): set<Edge> {
    set x, e | x in d.tuples.Keys && e in d.tuples[x] :: e
  }

  ghost function Nodes(d: Data): set<Node> {
    d.seeds + set e | e in AllEdges(d) :: e.target
  }

  lemma EdgesKnown(d: Data, x: Node)
    ensures forall e :: e in Edges(d, x) ==> e in AllEdges(d) && e.target in Nodes(d)
  {
  }

  /** An expansion of an id, either as a seed or because some worker claimed it. */
  datatype Launch = Launch(id: Node, asSeed: bool)

  /** `Hold` is a worker whose current tuple has passed both filters. */
  datatype Phase = Pending | Scan(rest: set<Edge>) | Hold(edge: Edge, rest: set<Edge>) | Done

  datatype State = State(seeded: set<Node>, claimed: set<Node>, tasks: map<Launch, Phase>, found: bool, failed: bool)
  {
    function Visited(): set<Node> {
      seeded + claimed
    }
  }

  datatype Step =
    | Seed(id: Node)
    | Start(task: Launch)
    | Take(task: Launch, edge: Edge)
    | Handle(task: Launch, edge: Edge)
    | Finish(task: Launch)
    | Fail(task: Launch)

  function Initial(): State {
    State({}, {}, map[], false, false)
  }

  predicate Enabled(c: Config, s: State, step: Step) {
    match step
    case Seed(id) => id in c.data.seeds && id !in s.seeded
    case Start(l) => l in s.tasks && s.tasks[l].Pending?
    case Take(l, e) => l in s.tasks && s.tasks[l].Scan? && e in s.tasks[l].rest
    case Handle(l, e) => l in s.tasks && s.tasks[l].Hold? && s.tasks[l].edge == e
    case Finish(l) => l in s.tasks && s.tasks[l] == Scan({})
    case Fail(l) => !c.reliable && l in s.tasks && (s.tasks[l].Pending? || s.tasks[l].Scan?)
  }

  /** Seeding stores the id unconditionally; the visited filter stores only an id not yet there. */
  function Apply(c: Config, s: State, step: Step): State
    requires Enabled(c, s, step)
  {
    match step
    case Seed(id) => s.(seeded := s.seeded + {id}, tasks := s.tasks[Launch(id, true) := Pending])
    case Start(l) => s.(tasks := s.tasks[l := Scan(Edges(c.data, l.id))])
    case Take(l, e) =>
      var rest := s.tasks[l].rest - {e};
      if e.target in s.Visited() then
        s.(tasks := s.tasks[l := Scan(rest)])
      else
        s.(claimed := s.claimed + {e.target}, tasks := s.tasks[l := if e.accepted then Hold(e, rest) else Scan(rest)])
    case Handle(l, e) =>
      if e.target in c.base then
        s.(found := true, tasks := s.tasks[l := Done])
      else
        s.(tasks := s.tasks[l := Scan(s.tasks[l].rest)][Launch(e.target, false) := Pending])
    case Finish(l) => s.(tasks := s.tasks[l := Done])
    case Fail(l) => s.(failed := true, tasks := s.tasks[l := Done])
  }

  /** The steps lead from one state to the other, each enabled when it is taken. */
  ghost predicate Run(c: Config, s: State, steps: seq<Step>, s': State)
    decreases |steps|
  {
    if steps == [] then s' == s
    else Enabled(c, s, steps[0]) && Run(c, Apply(c, s, steps[0]), steps[1..], s')
  }

  /** All seeds are launched and all workers have returned. */
  predicate Quiescent(c: Config, s: State) {
    s.seeded == c.data.seeds && forall l :: l in s.tasks ==> s.tasks[l].Done?
  }

  // ---------------------------------------------------------------- structure

  ghost predicate PhaseOk(c: Config, s: State, l: Launch)
    requires l in s.tasks
  {
    match s.tasks[l]
    case Pending => true
    case Scan(rest) => rest <= Edges(c.data, l.id)
    case Hold(e, rest) =>
      && rest <= Edges(c.data, l.id) && e in Edges(c.data, l.id) && e !in rest && e.accepted
      && e.target in s.claimed && Launch(e.target, false) !in s.tasks
    case Done => true
  }

  ghost predicate Holds(s: State, l: Launch, t: Node) {
    l in s.tasks && s.tasks[l].Hold? && s.tasks[l].edge.target == t
  }

  ghost predicate Shaped(c: Config, s: State) {
    && s.seeded <= c.data.seeds && s.claimed <= Nodes(c.data)
    && (forall x :: x in s.seeded <==> Launch(x, true) in s.tasks)
    && (forall x :: Launch(x, false) in s.tasks ==> x in s.claimed)
    && (forall l :: l in s.tasks ==> PhaseOk(c, s, l))
    && (forall l, m, t :: Holds(s, l, t) && Holds(s, m, t) ==> l == m)
  }

  lemma StepKeepsPhase(c: Config, s: State, step: Step, l: Launch)
    requires Shaped(c, s) && Enabled(c, s, step) && l in Apply(c, s, step).tasks
    ensures PhaseOk(c, Apply(c, s, step), l)
  {
    if l in s.tasks && s.tasks[l].Hold? && step.Handle? {
      assert Holds(s, l, s.tasks[l].edge.target);
      assert Holds(s, step.task, step.edge.target);
    }
  }

  lemma StepKeepsHolders(c: Config, s: State, step: Step, l: Launch, m: Launch, t: Node)
    requires Shaped(c, s) && Enabled(c, s, step)
    requires Holds(Apply(c, s, step), l, t) && Holds(Apply(c, s, step), m, t)
    ensures l == m
  {
    assert Holds(s, l, t) || (step.Take? && step.task == l && t !in s.claimed);
    assert Holds(s, m, t) || (step.Take? && step.task == m && t !in s.claimed);
  }

  lemma StepKeepsShape(c: Config, s: State, step: Step)
    requires Shaped(c, s) && Enabled(c, s, step)
    ensures Shaped(c, Apply(c, s, step))
  {
    var s' := Apply(c, s, step);
    if step.Take? {
      EdgesKnown(c.data, step.task.id);
    }
    forall l | l in s'.tasks
      ensures PhaseOk(c, s', l)
    {
      StepKeepsPhase(c, s, step, l);
    }
    forall l, m, t | Holds(s', l, t) && Holds(s', m, t)
      ensures l == m
    {
      StepKeepsHolders(c, s, step, l, m, t);
    }
  }

  // ---------------------------------------------------------------- termination

  ghost predicate Unread(s: State, l: Launch, e: Edge) {
    l in s.tasks ==> s.tasks[l].Pending? || ((s.tasks[l].Scan? || s.tasks[l].Hold?) && e in s.tasks[l].rest)
  }

  /** The step has not been taken yet. */
  ghost predicate Open(s: State, step: Step) {
    match step
    case Seed(id) => id !in s.seeded
    case Start(l) => l in s.tasks ==> s.tasks[l].Pending?
    case Take(l, e) => Unread(s, l, e)
    case Handle(l, e) => Unread(s, l, e) || (s.tasks[l].Hold? && s.tasks[l].edge == e)
    case Finish(l) => l in s.tasks ==> !s.tasks[l].Done?
    case Fail(l) => l in s.tasks ==> !s.tasks[l].Done?
  }

  /** Taking a step closes it. */
  lemma StepCloses(c: Config, s: State, step: Step)
    requires Shaped(c, s) && Enabled(c, s, step)
    ensures Open(s, step) && !Open(Apply(c, s, step), step)
  {
  }

  /** No step opens one that was closed. */
  lemma StepOpensNone(c: Config, s: State, step: Step, other: Step)
    requires Shaped(c, s) && Enabled(c, s, step) && Open(Apply(c, s, step), other)
    ensures Open(s, other)
  {
  }

  ghost function Launches(c: Config): set<Launch> {
    set x, b: bool | x in Nodes(c.data) :: Launch(x, b)
  }

  ghost function AllSteps(c: Config): set<Step> {
    var launches, edges := Launches(c), AllEdges(c.data);
    (set x | x in c.data.seeds :: Seed(x)) + (set l | l in launches :: Start(l))
    + (set l, e | l in launches && e in edges :: Take(l, e)) + (set l, e | l in launches && e in edges :: Handle(l, e))
    + (set l | l in launches :: Finish(l)) + (set l | l in launches :: Fail(l))
  }

  ghost function OpenSteps(c: Config, s: State): set<Step> {
    set step | step in AllSteps(c) && Open(s, step)
  }

  lemma EnabledIsKnown(c: Config, s: State, step: Step)
    requires Shaped(c, s) && Enabled(c, s, step)
    ensures step in AllSteps(c)
  {
    if !step.Seed? {
      var l := step.task;
      assert Launch(l.id, l.asSeed) == l;
      assert l.id in Nodes(c.data);
      EdgesKnown(c.data, l.id);
    }
  }

  lemma StepShrinks(c: Config, s: State, step: Step)
    requires Shaped(c, s) && Enabled(c, s, step)
    ensures |OpenSteps(c, Apply(c, s, step))| < |OpenSteps(c, s)|
  {
    var a, b := OpenSteps(c, Apply(c, s, step)), OpenSteps(c, s);
    StepCloses(c, s, step);
    forall other | other in a
      ensures other in b && other != step
    {
      StepOpensNone(c, s, step, other);
    }
    EnabledIsKnown(c, s, step);
    assert a <= b - {step} && step in b;
    Subset(a, b - {step});
  }

  lemma Subset<T>(a: set<T>, b: set<T>)
    requires a <= b
    ensures |a| <= |b|
  {
    assert b == a + (b - a) && |b| == |a| + |b - a|;
  }

  /** Every run ends: it has no more steps than there are actions at its start. */
  lemma {:induction false} RunsAreBounded(c: Config, s: State, steps: seq<Step>, s': State)
    requires Shaped(c, s) && Run(c, s, steps, s')
    ensures Shaped(c, s') && |steps| + |OpenSteps(c, s')| <= |OpenSteps(c, s)|
    decreases |steps|
  {
    if steps != [] {
      StepShrinks(c, s, steps[0]);
      StepKeepsShape(c, s, steps[0]);
      RunsAreBounded(c, Apply(c, s, steps[0]), steps[1..], s');
    }
  }

  lemma {:induction false} StepsWereOpen(c: Config, s: State, steps: seq<Step>, s': State, i: nat)
    requires Shaped(c, s) && Run(c, s, steps, s') && i < |steps|
    ensures Open(s, steps[i])
    decreases |steps|
  {
    if i == 0 {
      StepCloses(c, s, steps[0]);
    } else {
      StepKeepsShape(c, s, steps[0]);
      StepsWereOpen(c, Apply(c, s, steps[0]), steps[1..], s', i - 1);
      StepOpensNone(c, s, steps[0], steps[i]);
    }
  }

  /** No action happens twice in a run. */
  lemma {:induction false} NoStepRepeats(c: Config, s: State, steps: seq<Step>, s': State, i: nat, j: nat)
    requires Shaped(c, s) && Run(c, s, steps, s') && i < j < |steps|
    ensures steps[i] != steps[j]
    decreases |steps|
  {
    var t := Apply(c, s, steps[0]);
    StepKeepsShape(c, s, steps[0]);
    if i == 0 {
      StepCloses(c, s, steps[0]);
      StepsWereOpen(c, t, steps[1..], s', j - 1);
    } else {
      NoStepRepeats(c, t, steps[1..], s', i - 1, j - 1);
    }
  }

  /** An id is expanded at most twice. */
  lemma ExpandedAtMostTwice(c: Config, steps: seq<Step>, s: State, i: nat, j: nat, k: nat)
    requires Run(c, Initial(), steps, s) && i < j < k < |steps|
    requires steps[i].Start? && steps[j].Start? && steps[k].Start?
    ensures !(steps[i].task.id == steps[j].task.id == steps[k].task.id)
  {
    NoStepRepeats(c, Initial(), steps, s, i, j);
    NoStepRepeats(c, Initial(), steps, s, i, k);
    NoStepRepeats(c, Initial(), steps, s, j, k);
  }

  /** The second expansion is possible only for a seed: once as a seed, once as a claimed id. */
  lemma OnlySeedsExpandTwice(c: Config, steps: seq<Step>, s: State, i: nat, j: nat)
    requires Run(c, Initial(), steps, s) && i < j < |steps|
    requires steps[i].Start? && steps[j].Start? && steps[i].task.id == steps[j].task.id
    ensures steps[i].task.id in c.data.seeds
  {
    NoStepRepeats(c, Initial(), steps, s, i, j);
    StartsFromTask(c, Initial(), steps, s, i);
    StartsFromTask(c, Initial(), steps, s, j);
  }

  lemma {:induction false} StartsFromTask(c: Config, s: State, steps: seq<Step>, s': State, i: nat)
    requires Shaped(c, s) && Run(c, s, steps, s') && i < |steps| && steps[i].Start?
    ensures steps[i].task.asSeed ==> steps[i].task.id in c.data.seeds
    decreases |steps|
  {
    if i == 0 {
      assert Launch(steps[0].task.id, true) in s.tasks || !steps[0].task.asSeed;
    } else {
      StepKeepsShape(c, s, steps[0]);
      StartsFromTask(c, Apply(c, s, steps[0]), steps[1..], s', i - 1);
    }
  }

  // ---------------------------------------------------------------- progress

  /** Unless the search is over, some worker or the seeding can go on without a failure. */
  lemma NextStep(c: Config, s: State) returns (step: Step)
    requires Shaped(c, s) && !Quiescent(c, s)
    ensures Enabled(c, s, step) && !step.Fail?
  {
    if s.seeded != c.data.seeds {
      var x :| x in c.data.seeds && x !in s.seeded;
      step := Seed(x);
    } else {
      var l :| l in s.tasks && !s.tasks[l].Done?;
      match s.tasks[l]
      case Pending => step := Start(l);
      case Hold(e, _) => step := Handle(l, e);
      case Scan(rest) =>
        if rest == {} {
          step := Finish(l);
        } else {
          var e :| e in rest;
          step := Take(l, e);
        }
    }
  }
}
