/**
 What every run of the v2 recursive search has established: matches are real, and a search that
 ends without a match and without an error has looked everywhere, unless a tuple with a false
 condition claimed an id first.
 */
module WorkSharingExact {
  import opened Reachability
  import opened WorkSharing

  /** A chain of accepted tuples from a seed. */
  ghost predicate Chain(d: Data, p: seq<Node>, x: Node) {
    Path(Accepted(d), p) && p[0] in d.seeds && p[|p| - 1] == x
  }

  ghost predicate Reached(d: Data, x: Node) {
    exists p :: Chain(d, p, x)
  }

  /** Some chain leads to the id through ids of the set only. */
  ghost predicate Grounded(d: Data, x: Node, V: set<Node>) {
    exists p :: Chain(d, p, x) && forall y :: y in p ==> y in V
  }

  lemma AcceptedEdge(d: Data, x: Node, y: Node)
    ensures y in Succ(Accepted(d), x) <==> Edge(y, true) in Edges(d, x)
  {
  }

  lemma ChainGrows(d: Data, p: seq<Node>, x: Node, y: Node)
    requires Chain(d, p, x) && Edge(y, true) in Edges(d, x)
    ensures Chain(d, p + [y], y)
  {
    AcceptedEdge(d, x, y);
    PathGrows(Accepted(d), p, y);
  }

  lemma GroundGrows(d: Data, x: Node, V: set<Node>, y: Node)
    requires Grounded(d, x, V) && y in V && Edge(y, true) in Edges(d, x)
    ensures Grounded(d, y, V)
  {
    var p :| Chain(d, p, x) && forall z :: z in p ==> z in V;
    ChainGrows(d, p, x, y);
  }

  lemma ReachedBase(c: Config, x: Node)
    requires Reached(c.data, x) && x in c.base
    ensures SomeReaches(Accepted(c.data), c.data.seeds, c.base)
  {
    var p :| Chain(c.data, p, x);
    assert PathInto(Accepted(c.data), p[0], c.base, p);
  }

  ghost predicate Sound(c: Config, s: State) {
    && (forall l :: l in s.tasks ==> Grounded(c.data, l.id, s.Visited()))
    && (s.found ==> SomeReaches(Accepted(c.data), c.data.seeds, c.base))
  }

  lemma StepKeepsSound(c: Config, s: State, step: Step)
    requires Shaped(c, s) && Sound(c, s) && Enabled(c, s, step)
    ensures Sound(c, Apply(c, s, step))
  {
    var s' := Apply(c, s, step);
    if step.Handle? {
      GroundGrows(c.data, step.task.id, s.Visited(), step.edge.target);
      assert Reached(c.data, step.edge.target);
      if step.edge.target in c.base {
        ReachedBase(c, step.edge.target);
      }
    }
    forall l | l in s'.tasks
      ensures Grounded(c.data, l.id, s'.Visited())
    {
      if step.Seed? && l.id == step.id {
        assert Chain(c.data, [l.id], l.id);
      } else {
        assert Grounded(c.data, l.id, s.Visited());
      }
    }
  }

  /** A tuple without a true condition can claim the id before any other tuple does. */
  ghost predicate Exposed(d: Data, t: Node) {
    t !in d.seeds && exists p, y :: RejectedAt(d, t, p, y)
  }

  ghost predicate RejectedAt(d: Data, t: Node, p: seq<Node>, y: Node) {
    Chain(d, p, y) && t !in p && Edge(t, false) in Edges(d, y)
  }

  /** No id that the search should reach can be claimed by a rejected tuple first. */
  ghost predicate Safe(d: Data) {
    forall t :: Exposed(d, t) ==> !Reached(d, t)
  }

  ghost function Remaining(c: Config, s: State, l: Launch): set<Edge>
    requires l in s.tasks
  {
    match s.tasks[l]
    case Pending => Edges(c.data, l.id)
    case Scan(rest) => rest
    case Hold(_, rest) => rest
    case Done => {}
  }

  ghost predicate Covered(c: Config, s: State, l: Launch)
    requires l in s.tasks
  {
    forall e :: e in Edges(c.data, l.id) && e !in Remaining(c, s, l) ==> e.target in s.Visited()
  }

  ghost predicate Held(s: State, t: Node) {
    exists l :: Holds(s, l, t)
  }

  ghost predicate Accounted(c: Config, s: State, t: Node) {
    t in c.data.seeds || Launch(t, false) in s.tasks || Held(s, t) || Exposed(c.data, t)
  }

  /** What a search that has neither found a match nor failed has established. */
  ghost predicate Complete(c: Config, s: State) {
    && (forall l :: l in s.tasks ==> l.id !in c.base && Covered(c, s, l))
    && (forall t :: t in s.claimed ==> Accounted(c, s, t))
  }

  lemma StepKeepsCovered(c: Config, s: State, step: Step, l: Launch)
    requires Shaped(c, s) && Complete(c, s) && Enabled(c, s, step) && c.data.seeds !! c.base
    requires !Apply(c, s, step).found && !Apply(c, s, step).failed && l in Apply(c, s, step).tasks
    ensures l.id !in c.base && Covered(c, Apply(c, s, step), l)
  {
  }

  /** An id is claimed by a worker that then holds it, or by a rejected tuple of a grounded id. */
  lemma ClaimIsAccounted(c: Config, s: State, l: Launch, e: Edge)
    requires Shaped(c, s) && Sound(c, s) && Enabled(c, s, Take(l, e)) && e.target !in s.Visited()
    ensures Accounted(c, Apply(c, s, Take(l, e)), e.target)
  {
    var s' := Apply(c, s, Take(l, e));
    if e.accepted {
      assert Holds(s', l, e.target);
    } else if e.target !in c.data.seeds {
      assert PhaseOk(c, s, l) && e == Edge(e.target, false);
      assert Grounded(c.data, l.id, s.Visited());
      var p :| Chain(c.data, p, l.id) && forall y :: y in p ==> y in s.Visited();
      assert RejectedAt(c.data, e.target, p, l.id);
    }
  }

  lemma StepKeepsAccounted(c: Config, s: State, step: Step, t: Node)
    requires Shaped(c, s) && Sound(c, s) && Complete(c, s) && Enabled(c, s, step)
    requires !Apply(c, s, step).found && t in Apply(c, s, step).claimed
    ensures Accounted(c, Apply(c, s, step), t)
  {
    if t !in s.claimed {
      ClaimIsAccounted(c, s, step.task, step.edge);
    } else if Held(s, t) {
      var l :| Holds(s, l, t);
      assert Holds(Apply(c, s, step), l, t) || step.Handle?;
    }
  }

  lemma StepKeepsComplete(c: Config, s: State, step: Step)
    requires Shaped(c, s) && Sound(c, s) && Complete(c, s) && Enabled(c, s, step) && c.data.seeds !! c.base
    requires !Apply(c, s, step).found && !Apply(c, s, step).failed
    ensures Complete(c, Apply(c, s, step))
  {
    forall l | l in Apply(c, s, step).tasks
      ensures l.id !in c.base && Covered(c, Apply(c, s, step), l)
    {
      StepKeepsCovered(c, s, step, l);
    }
    forall t | t in Apply(c, s, step).claimed
      ensures Accounted(c, Apply(c, s, step), t)
    {
      StepKeepsAccounted(c, s, step, t);
    }
  }

  ghost predicate Invariant(c: Config, s: State) {
    Shaped(c, s) && Sound(c, s) && (s.found || s.failed || Complete(c, s)) && (c.reliable ==> !s.failed)
  }

  lemma InitialInvariant(c: Config)
    ensures Invariant(c, Initial())
  {
  }

  lemma StepKeepsInvariant(c: Config, s: State, step: Step)
    requires Invariant(c, s) && Enabled(c, s, step) && c.data.seeds !! c.base
    ensures Invariant(c, Apply(c, s, step))
  {
    StepKeepsShape(c, s, step);
    StepKeepsSound(c, s, step);
    var s' := Apply(c, s, step);
    if !s'.found && !s'.failed {
      StepKeepsComplete(c, s, step);
    }
  }

  lemma {:induction false} RunKeepsInvariant(c: Config, s: State, steps: seq<Step>, s': State)
    requires Invariant(c, s) && Run(c, s, steps, s') && c.data.seeds !! c.base
    ensures Invariant(c, s')
    decreases |steps|
  {
    if steps != [] {
      StepKeepsInvariant(c, s, steps[0]);
      RunKeepsInvariant(c, Apply(c, s, steps[0]), steps[1..], s');
    }
  }

  lemma QuiescentCloses(c: Config, s: State, l: Launch, y: Node)
    requires Invariant(c, s) && Quiescent(c, s) && Safe(c.data) && !s.found && !s.failed
    requires l in s.tasks && Edge(y, true) in Edges(c.data, l.id)
    ensures Launch(y, true) in s.tasks || Launch(y, false) in s.tasks
  {
    assert Covered(c, s, l) && Grounded(c.data, l.id, s.Visited());
    if y !in s.seeded {
      assert Accounted(c, s, y);
      var p :| Chain(c.data, p, l.id);
      ChainGrows(c.data, p, l.id, y);
      assert Reached(c.data, y);
    }
  }

  /** A finished search that found nothing is right to answer no. */
  lemma QuiescentIsExact(c: Config, s: State)
    requires Invariant(c, s) && Quiescent(c, s) && Safe(c.data) && !s.found && !s.failed
    ensures !SomeReaches(Accepted(c.data), c.data.seeds, c.base)
  {
    var V := set l | l in s.tasks :: l.id;
    forall x, y | x in V && y in Succ(Accepted(c.data), x)
      ensures y in V
    {
      AcceptedEdge(c.data, x, y);
      var l :| l in s.tasks && l.id == x;
      QuiescentCloses(c, s, l, y);
      assert Launch(y, true).id == Launch(y, false).id == y;
    }
    ClosedSetIsSafe(Accepted(c.data), V, c.base);
    forall x | x in c.data.seeds
      ensures x in V
    {
      assert Launch(x, true).id == x;
    }
  }
}
