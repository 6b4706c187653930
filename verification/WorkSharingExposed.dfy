/**
 When the v2 recursive search is exact for every user and every schedule. The converse of its
 exactness is shown by building, for an id that a rejected tuple may claim first, a run that reads
 that tuple first and goes on to the end without ever finding the id.
 */
module WorkSharingExposed {
  import opened Reachability
  import opened WorkSharing
  import opened WorkSharingExact

  lemma RunStarts(c: Config, s: State, step: Step, steps: seq<Step>, s': State)
    requires Enabled(c, s, step) && Run(c, Apply(c, s, step), steps, s')
    ensures Run(c, s, [step] + steps, s')
  {
  }

  lemma {:induction false} RunToEnd(c: Config, s: State) returns (steps: seq<Step>, s': State)
    requires Shaped(c, s)
    ensures Run(c, s, steps, s') && Quiescent(c, s') && s'.failed == s.failed
    decreases |OpenSteps(c, s)|
  {
    if Quiescent(c, s) {
      return [], s;
    }
    var step := NextStep(c, s);
    StepShrinks(c, s, step);
    StepKeepsShape(c, s, step);
    steps, s' := RunToEnd(c, Apply(c, s, step));
    RunStarts(c, s, step, steps, s');
    steps := [step] + steps;
  }

  lemma {:induction false} RunsJoin(c: Config, s: State, a: seq<Step>, t: State, b: seq<Step>, u: State)
    requires Run(c, s, a, t) && Run(c, t, b, u)
    ensures Run(c, s, a + b, u)
    decreases |a|
  {
    if a == [] {
      assert a + b == b;
    } else {
      RunsJoin(c, Apply(c, s, a[0]), a[1..], t, b, u);
      assert (a + b)[0] == a[0] && (a + b)[1..] == a[1..] + b;
    }
  }

  /** The id sits in the visited map, but no worker will ever look at it. */
  ghost predicate Lost(c: Config, s: State, t: Node) {
    t in s.claimed && t !in c.data.seeds && Launch(t, false) !in s.tasks && !Held(s, t)
  }

  lemma StepKeepsLost(c: Config, s: State, step: Step, t: Node)
    requires Shaped(c, s) && Enabled(c, s, step) && Lost(c, s, t) && c.base == {t} && !s.found
    ensures Lost(c, Apply(c, s, step), t) && !Apply(c, s, step).found
  {
    if step.Handle? {
      assert Holds(s, step.task, step.edge.target);
    }
    forall l
      ensures !Holds(Apply(c, s, step), l, t)
    {
      assert !Holds(s, l, t);
    }
  }

  lemma {:induction false} RunKeepsLost(c: Config, s: State, steps: seq<Step>, s': State, t: Node)
    requires Shaped(c, s) && Run(c, s, steps, s') && Lost(c, s, t) && c.base == {t} && !s.found
    ensures !s'.found
    decreases |steps|
  {
    if steps != [] {
      StepKeepsShape(c, s, steps[0]);
      StepKeepsLost(c, s, steps[0], t);
      RunKeepsLost(c, Apply(c, s, steps[0]), steps[1..], s', t);
    }
  }

  /** A search that has so far left every rejected tuple and every tuple to `t` unread. */
  ghost predicate Careful(c: Config, s: State, t: Node) {
    && Shaped(c, s) && t !in s.Visited() && !s.found && !s.failed && c.base == {t}
    && (forall l :: l in s.tasks ==> !s.tasks[l].Done? && CarefulTask(c, s, l, t))
    && (forall x :: x in s.claimed ==> Launch(x, false) in s.tasks || Held(s, x))
  }

  ghost predicate CarefulTask(c: Config, s: State, l: Launch, t: Node)
    requires l in s.tasks
  {
    forall e :: e in Edges(c.data, l.id) && e !in Remaining(c, s, l) ==> e.accepted && e.target in s.Visited()
  }

  predicate CarefulStep(step: Step, t: Node) {
    step.Seed? || step.Start? || step.Handle? || (step.Take? && step.edge.accepted && step.edge.target != t)
  }

  ghost predicate Stuck(c: Config, s: State, t: Node) {
    && s.seeded == c.data.seeds
    && forall l :: l in s.tasks ==> s.tasks[l].Scan? && forall e :: e in s.tasks[l].rest && e.accepted ==> e.target == t
  }

  lemma CarefulStepHolds(c: Config, s: State, step: Step, t: Node, x: Node)
    requires Careful(c, s, t) && Enabled(c, s, step) && CarefulStep(step, t) && x in Apply(c, s, step).claimed
    ensures Launch(x, false) in Apply(c, s, step).tasks || Held(Apply(c, s, step), x)
  {
    var s' := Apply(c, s, step);
    if x !in s.claimed {
      assert Holds(s', step.task, x);
    } else if Held(s, x) {
      var l :| Holds(s, l, x);
      assert Holds(s', l, x) || step.Handle?;
    }
  }

  lemma CarefulStepTask(c: Config, s: State, step: Step, t: Node, l: Launch)
    requires Careful(c, s, t) && Enabled(c, s, step) && CarefulStep(step, t) && l in Apply(c, s, step).tasks
    ensures !Apply(c, s, step).tasks[l].Done? && CarefulTask(c, Apply(c, s, step), l, t)
  {
  }

  lemma CarefulStepKeeps(c: Config, s: State, step: Step, t: Node)
    requires Careful(c, s, t) && Enabled(c, s, step) && CarefulStep(step, t) && t !in c.data.seeds
    ensures Careful(c, Apply(c, s, step), t)
  {
    StepKeepsShape(c, s, step);
    forall l | l in Apply(c, s, step).tasks
      ensures !Apply(c, s, step).tasks[l].Done? && CarefulTask(c, Apply(c, s, step), l, t)
    {
      CarefulStepTask(c, s, step, t, l);
    }
    forall x | x in Apply(c, s, step).claimed
      ensures Launch(x, false) in Apply(c, s, step).tasks || Held(Apply(c, s, step), x)
    {
      CarefulStepHolds(c, s, step, t, x);
    }
  }

  lemma NextCarefulStep(c: Config, s: State, t: Node) returns (step: Step)
    requires Careful(c, s, t) && !Stuck(c, s, t)
    ensures Enabled(c, s, step) && CarefulStep(step, t)
  {
    if s.seeded != c.data.seeds {
      var x :| x in c.data.seeds && x !in s.seeded;
      return Seed(x);
    }
    var l :| l in s.tasks && !(s.tasks[l].Scan? && forall e :: e in s.tasks[l].rest && e.accepted ==> e.target == t);
    match s.tasks[l]
    case Pending => step := Start(l);
    case Hold(e, _) => step := Handle(l, e);
    case Scan(rest) =>
      var e :| e in rest && e.accepted && e.target != t;
      step := Take(l, e);
  }

  lemma {:induction false} CarefulRun(c: Config, s: State, t: Node) returns (steps: seq<Step>, s': State)
    requires Careful(c, s, t) && t !in c.data.seeds
    ensures Run(c, s, steps, s') && Careful(c, s', t) && Stuck(c, s', t)
    decreases |OpenSteps(c, s)|
  {
    if Stuck(c, s, t) {
      return [], s;
    }
    var step := NextCarefulStep(c, s, t);
    StepShrinks(c, s, step);
    CarefulStepKeeps(c, s, step, t);
    steps, s' := CarefulRun(c, Apply(c, s, step), t);
    RunStarts(c, s, step, steps, s');
    steps := [step] + steps;
  }

  ghost predicate Launched(s: State, x: Node) {
    Launch(x, true) in s.tasks || Launch(x, false) in s.tasks
  }

  /** A careful search that cannot go on has launched everything that is reached without `t`. */
  lemma {:induction false} StuckReaches(c: Config, s: State, t: Node, p: seq<Node>, i: nat)
    requires Careful(c, s, t) && Stuck(c, s, t) && i < |p|
    requires Path(Accepted(c.data), p) && p[0] in c.data.seeds && t !in p
    ensures Launched(s, p[i])
    decreases i
  {
    if i > 0 {
      StuckReaches(c, s, t, p, i - 1);
      PathEdge(Accepted(c.data), p, i - 1);
      StuckFollows(c, s, t, p[i - 1], p[i]);
    }
  }

  lemma StuckFollows(c: Config, s: State, t: Node, x: Node, y: Node)
    requires Careful(c, s, t) && Stuck(c, s, t) && Launched(s, x) && y in Succ(Accepted(c.data), x) && y != t
    ensures Launched(s, y)
  {
  }

  /** From there, the rejected tuple to `t` is read first. */
  lemma StuckLoses(c: Config, s: State, t: Node, p: seq<Node>, y: Node) returns (step: Step)
    requires Careful(c, s, t) && Stuck(c, s, t) && RejectedAt(c.data, t, p, y) && t !in c.data.seeds
    ensures Enabled(c, s, step) && step.Take? && Lost(c, Apply(c, s, step), t)
  {
    StuckReaches(c, s, t, p, |p| - 1);
    var l := if Launch(y, true) in s.tasks then Launch(y, true) else Launch(y, false);
    assert CarefulTask(c, s, l, t) && l.id == y;
    step := Take(l, Edge(t, false));
    forall m
      ensures !Holds(Apply(c, s, step), m, t)
    {
      assert !Holds(s, m, t);
    }
  }

  lemma LostIsMissed(c: Config, s: State, step: Step, t: Node) returns (steps: seq<Step>, s': State)
    requires Careful(c, s, t) && Enabled(c, s, step) && step.Take? && Lost(c, Apply(c, s, step), t)
    ensures Run(c, s, steps, s') && Quiescent(c, s') && !s'.failed && !s'.found
  {
    StepKeepsShape(c, s, step);
    var rest, s'' := RunToEnd(c, Apply(c, s, step));
    RunKeepsLost(c, Apply(c, s, step), rest, s'', t);
    RunStarts(c, s, step, rest, s'');
    steps, s' := [step] + rest, s'';
  }

  lemma StuckMisses(c: Config, s: State, t: Node) returns (steps: seq<Step>, s': State)
    requires Careful(c, s, t) && Stuck(c, s, t) && Exposed(c.data, t)
    ensures Run(c, s, steps, s') && Quiescent(c, s') && !s'.failed && !s'.found
  {
    var p, y :| RejectedAt(c.data, t, p, y);
    var step := StuckLoses(c, s, t, p, y);
    steps, s' := LostIsMissed(c, s, step, t);
  }

  /** Some run ends without an error and without the match it should have found. */
  lemma ExposedIsMissed(c: Config, t: Node) returns (steps: seq<Step>, s: State)
    requires Exposed(c.data, t) && c.base == {t}
    ensures Run(c, Initial(), steps, s) && Quiescent(c, s) && !s.failed && !s.found
  {
    var first, s0 := CarefulRun(c, Initial(), t);
    var last;
    last, s := StuckMisses(c, s0, t);
    RunsJoin(c, Initial(), first, s0, last, s);
    steps := first + last;
  }

  /** Every complete run without an error gives the right answer. */
  ghost predicate Exact(c: Config) {
    forall steps, s :: Run(c, Initial(), steps, s) && Quiescent(c, s) && !s.failed ==>
                         (s.found <==> SomeReaches(Accepted(c.data), c.data.seeds, c.base))
  }

  /** The search is exact for every user exactly when no reached id is exposed to a rejected tuple. */
  lemma ExactIffSafe(d: Data)
    ensures Safe(d) <==> forall c: Config :: c.data == d && d.seeds !! c.base ==> Exact(c)
  {
    if Safe(d) {
      forall c: Config, steps, s
        | c.data == d && d.seeds !! c.base && Run(c, Initial(), steps, s) && Quiescent(c, s) && !s.failed
        ensures s.found <==> SomeReaches(Accepted(d), d.seeds, c.base)
      {
        InitialInvariant(c);
        RunKeepsInvariant(c, Initial(), steps, s);
        if !s.found {
          QuiescentIsExact(c, s);
        }
      }
    } else {
      var t :| Exposed(d, t) && Reached(d, t);
      var c := Config(d, {t}, true);
      var steps, s := ExposedIsMissed(c, t);
      ReachedBase(c, t);
      assert !Exact(c);
    }
  }

  /** A store in which every condition holds is always safe. */
  lemma AcceptingAllIsSafe(d: Data)
    requires forall e :: e in AllEdges(d) ==> e.accepted
    ensures Safe(d)
  {
  }

  /** Object 1 leads to 3 by a tuple with a false condition, object 2 by one with a true condition. */
  lemma ConditionCanHideMember()
    ensures var d := Data(map[1 := {Edge(3, false)}, 2 := {Edge(3, true)}], {1, 2}); !Safe(d)
  {
    var d := Data(map[1 := {Edge(3, false)}, 2 := {Edge(3, true)}], {1, 2});
    assert RejectedAt(d, 3, [1], 1) by {
      assert Chain(d, [1], 1);
    }
    assert Chain(d, [2], 2);
    ChainGrows(d, [2], 2, 3);
    assert Exposed(d, 3) && Reached(d, 3);
  }
}
