/**
 The v2 recursive search with its bounds. At most `limit` workers run at a time: seeding waits for
 a place before it starts a worker, while a worker that finds no place for a new one runs it itself
 and waits for it. Matches and errors go into a channel of `limit` places, and a worker waits while
 that is full. The channel is read only after the last seed has been started, so the search can block.
 */
module BoundedSearch {
  import opened Reachability
  import opened WorkSharing
  import opened WorkSharingExact

  /** Seeding is between two seeds, or has stored one and waits for a place to start its worker. */
  datatype Gate = Open | Waiting(id: Node)

  /**
   `running` maps the launch that each worker is at to the launches it has left unfinished below that
   one, innermost last. `failing` holds launches whose read has failed and not been reported yet.
   A message in `channel` is true for a match and false for an error; `matched` are the ids found.
   */
  datatype Bounded = Bounded(
    core: State, gate: Gate, running: map<Launch, seq<Launch>>, failing: set<Launch>,
    channel: seq<bool>, matched: set<Node>, answered: bool)

  datatype Action = Store(id: Node) | Go | Work(step: Step) | ReadFails(task: Launch) | Receive

  function Begin(): Bounded {
    Bounded(Initial(), Open, map[], {}, [], {}, false)
  }

  /** All seeds have been started; from then on the channel is read. */
  predicate Receiving(c: Config, b: Bounded) {
    b.core.seeded == c.data.seeds && b.gate.Open?
  }

  predicate Sends(c: Config, step: Step) {
    step.Fail? || (step.Handle? && step.edge.target in c.base)
  }

  predicate CanAct(c: Config, limit: nat, b: Bounded, a: Action) {
    && !b.answered
    && match a
       case Store(id) => b.gate.Open? && Enabled(c, b.core, Seed(id))
       case Go => b.gate.Waiting? && |b.running| < limit
       case Work(step) =>
         && !step.Seed? && Enabled(c, b.core, step) && step.task in b.running
         && (step.Fail? <==> step.task in b.failing) && (Sends(c, step) ==> |b.channel| < limit)
       case ReadFails(l) => l in b.running && l !in b.failing && Enabled(c, b.core, Fail(l))
       case Receive => Receiving(c, b) && b.channel != []
  }

  /** A worker returns from a launch to the one below it, or gives up its place. */
  function Returned(running: map<Launch, seq<Launch>>, l: Launch): map<Launch, seq<Launch>>
    requires l in running
  {
    var below := running[l];
    if below == [] then running - {l} else (running - {l})[below[|below| - 1] := below[..|below| - 1]]
  }

  /** A new launch gets a worker of its own if there is a place, else the discovering worker turns to it. */
  function Started(running: map<Launch, seq<Launch>>, limit: nat, l: Launch, child: Launch): map<Launch, seq<Launch>>
    requires l in running
  {
    if |running| < limit then running[child := []] else (running - {l})[child := running[l] + [l]]
  }

  function Act(c: Config, limit: nat, b: Bounded, a: Action): Bounded
    requires CanAct(c, limit, b, a)
  {
    match a
    case Store(id) => b.(core := Apply(c, b.core, Seed(id)), gate := Waiting(id))
    case Go => b.(gate := Open, running := b.running[Launch(b.gate.id, true) := []])
    case ReadFails(l) => b.(failing := b.failing + {l})
    case Receive => b.(channel := b.channel[1..], answered := b.channel[0])
    case Work(step) =>
      var core := Apply(c, b.core, step);
      if Sends(c, step) then
        b.(core := core, running := Returned(b.running, step.task), channel := b.channel + [step.Handle?],
           matched := b.matched + if step.Handle? then {step.edge.target} else {})
      else if step.Finish? then
        b.(core := core, running := Returned(b.running, step.task))
      else if step.Handle? then
        b.(core := core, running := Started(b.running, limit, step.task, Launch(step.edge.target, false)))
      else
        b.(core := core)
  }

  ghost predicate Acts(c: Config, limit: nat, b: Bounded, actions: seq<Action>, b': Bounded)
    decreases |actions|
  {
    if actions == [] then b' == b
    else CanAct(c, limit, b, actions[0]) && Acts(c, limit, Act(c, limit, b, actions[0]), actions[1..], b')
  }

  /** A match was received, or the channel was closed after the last worker and read to its end. */
  predicate Over(c: Config, b: Bounded) {
    b.answered || (Receiving(c, b) && b.running == map[] && b.channel == [])
  }

  /** The search is not over and nothing can happen any more. */
  ghost predicate Blocked(c: Config, limit: nat, b: Bounded) {
    !Over(c, b) && forall a :: !CanAct(c, limit, b, a)
  }

  ghost predicate Reachable(c: Config, limit: nat, b: Bounded) {
    exists actions :: Acts(c, limit, Begin(), actions, b)
  }

  ghost predicate CanBlock(c: Config, limit: nat) {
    exists b :: Reachable(c, limit, b) && Blocked(c, limit, b)
  }

  lemma {:induction false} ActsExtend(c: Config, limit: nat, b: Bounded, actions: seq<Action>, b': Bounded, a: Action)
    requires Acts(c, limit, b, actions, b') && CanAct(c, limit, b', a)
    ensures Acts(c, limit, b, actions + [a], Act(c, limit, b', a))
    decreases |actions|
  {
    if actions == [] {
      assert (actions + [a])[1..] == [];
    } else {
      ActsExtend(c, limit, Act(c, limit, b, actions[0]), actions[1..], b', a);
      assert (actions + [a])[1..] == actions[1..] + [a];
    }
  }

  lemma ReachNext(c: Config, limit: nat, b: Bounded, a: Action)
    requires Reachable(c, limit, b) && CanAct(c, limit, b, a)
    ensures Reachable(c, limit, Act(c, limit, b, a))
  {
    var actions :| Acts(c, limit, Begin(), actions, b);
    ActsExtend(c, limit, Begin(), actions, b, a);
  }

  // ---------------------------------------------------------------- where the launches are

  predicate Alive(s: State, l: Launch) {
    l in s.tasks && !s.tasks[l].Done?
  }

  ghost predicate NoRepeats(ls: seq<Launch>) {
    forall i, j :: 0 <= i < j < |ls| ==> ls[i] != ls[j]
  }

  /** What lies below a running launch: suspended launches that read on when it is done. */
  ghost predicate StackOk(s: State, running: map<Launch, seq<Launch>>, l: Launch)
    requires l in running
  {
    && Alive(s, l) && NoRepeats(running[l])
    && forall x :: x in running[l] ==> x in s.tasks && s.tasks[x].Scan? && x !in running
  }

  ghost predicate Apart(running: map<Launch, seq<Launch>>, l: Launch, m: Launch)
    requires l in running && m in running
  {
    forall x :: x in running[l] ==> x !in running[m]
  }

  ghost predicate Stacked(s: State, running: map<Launch, seq<Launch>>) {
    && (forall l :: l in running ==> StackOk(s, running, l))
    && (forall l, m :: l in running && m in running && l != m ==> Apart(running, l, m))
  }

  ghost predicate Placed(running: map<Launch, seq<Launch>>, l: Launch) {
    l in running || exists m :: m in running && l in running[m]
  }

  predicate IsWaiting(g: Gate, l: Launch) {
    g.Waiting? && l == Launch(g.id, true)
  }

  ghost predicate Located(b: Bounded) {
    && Stacked(b.core, b.running)
    && (forall l :: Alive(b.core, l) ==> IsWaiting(b.gate, l) || Placed(b.running, l))
    && (b.gate.Waiting? ==> Alive(b.core, Launch(b.gate.id, true)) && !Placed(b.running, Launch(b.gate.id, true)))
  }

  /** Only the running launch changed, and it is still alive. */
  lemma SamePlaces(s: State, s': State, running: map<Launch, seq<Launch>>, l: Launch)
    requires Stacked(s, running) && l in running && Alive(s', l)
    requires s'.tasks.Keys == s.tasks.Keys && forall x :: x in s.tasks && x != l ==> s'.tasks[x] == s.tasks[x]
    ensures Stacked(s', running)
  {
    forall m | m in running
      ensures StackOk(s', running, m)
    {
      assert StackOk(s, running, m);
    }
  }

  lemma ReturnStacked(s: State, s': State, running: map<Launch, seq<Launch>>, l: Launch)
    requires Stacked(s, running) && l in running
    requires s'.tasks.Keys == s.tasks.Keys && forall x :: x in s.tasks && x != l ==> s'.tasks[x] == s.tasks[x]
    ensures Stacked(s', Returned(running, l))
  {
    var after := Returned(running, l);
    assert StackOk(s, running, l);
    forall m | m in after
      ensures StackOk(s', after, m)
    {
      assert m in running ==> StackOk(s, running, m) && (m != l ==> Apart(running, m, l));
    }
    forall m, n | m in after && n in after && m != n
      ensures Apart(after, m, n)
    {
      assert m in running && n in running ==> Apart(running, m, n);
      assert m in running && m != l ==> Apart(running, m, l) && Apart(running, l, m);
      assert n in running && n != l ==> Apart(running, n, l) && Apart(running, l, n);
    }
  }

  lemma ReturnPlaces(s: State, running: map<Launch, seq<Launch>>, l: Launch, x: Launch)
    requires Stacked(s, running) && l in running
    ensures Placed(Returned(running, l), x) <==> x != l && Placed(running, x)
  {
    var after, below := Returned(running, l), running[l];
    assert StackOk(s, running, l);
    if below != [] {
      assert below == below[..|below| - 1] + [below[|below| - 1]];
      assert after[below[|below| - 1]] == below[..|below| - 1];
    }
    forall m | m in running && m != l
      ensures m in after && after[m] == running[m] && l !in running[m]
    {
      assert StackOk(s, running, m);
    }
    if x in running[l] {
      assert x in after || x in after[below[|below| - 1]];
    }
    if m :| m in running && x in running[m] && m != l {
      assert x in after[m];
    }
  }

  /** A launch joins: only the discovering launch changed otherwise, and it is ready to read on. */
  lemma StartStacked(s: State, s': State, running: map<Launch, seq<Launch>>, limit: nat, l: Launch, child: Launch)
    requires Stacked(s, running) && l in running && child !in s.tasks
    requires s'.tasks.Keys == s.tasks.Keys + {child} && s'.tasks[l].Scan? && s'.tasks[child].Pending?
    requires forall x :: x in s.tasks && x != l ==> s'.tasks[x] == s.tasks[x]
    ensures Stacked(s', Started(running, limit, l, child))
  {
    var after := Started(running, limit, l, child);
    assert StackOk(s, running, l);
    forall m | m in after
      ensures StackOk(s', after, m)
    {
      assert m in running ==> StackOk(s, running, m);
    }
    forall m, n | m in after && n in after && m != n
      ensures Apart(after, m, n)
    {
      assert m in running ==> StackOk(s, running, m) && (m != l ==> Apart(running, m, l) && Apart(running, l, m));
      assert n in running ==> StackOk(s, running, n) && (n != l ==> Apart(running, n, l) && Apart(running, l, n));
      assert m in running && n in running ==> Apart(running, m, n);
    }
  }

  lemma StartPlaces(running: map<Launch, seq<Launch>>, limit: nat, l: Launch, child: Launch, x: Launch)
    requires l in running && child !in running
    ensures Placed(Started(running, limit, l, child), x) <==> x == child || Placed(running, x)
  {
    var after := Started(running, limit, l, child);
    if |running| >= limit {
      assert after[child] == running[l] + [l];
      assert l in after[child];
    }
    if m :| m in running && x in running[m] {
      assert (m in after && x in after[m]) || x in after[child];
    }
    if m :| m in after && x in after[m] {
      assert m != child ==> m in running && x in running[m];
    }
  }

  lemma Unplaced(s: State, running: map<Launch, seq<Launch>>, x: Launch)
    requires Stacked(s, running) && x !in s.tasks
    ensures !Placed(running, x)
  {
    forall l | l in running
      ensures l != x && x !in running[l]
    {
      assert StackOk(s, running, l);
    }
  }

  lemma ReturnKeepsLocated(c: Config, limit: nat, b: Bounded, step: Step)
    requires Shaped(c, b.core) && Located(b) && CanAct(c, limit, b, Work(step)) && (Sends(c, step) || step.Finish?)
    ensures Located(Act(c, limit, b, Work(step)))
  {
    var b', l := Act(c, limit, b, Work(step)), step.task;
    ReturnStacked(b.core, b'.core, b.running, l);
    forall x
      ensures Placed(b'.running, x) <==> x != l && Placed(b.running, x)
    {
      ReturnPlaces(b.core, b.running, l, x);
    }
  }

  lemma DiscoveryStacks(c: Config, limit: nat, b: Bounded, step: Step)
    requires Shaped(c, b.core) && Stacked(b.core, b.running) && CanAct(c, limit, b, Work(step))
    requires step.Handle? && !Sends(c, step)
    ensures Launch(step.edge.target, false) !in b.core.tasks
    ensures Stacked(Act(c, limit, b, Work(step)).core, Act(c, limit, b, Work(step)).running)
  {
    assert PhaseOk(c, b.core, step.task);
    var child := Launch(step.edge.target, false);
    StartStacked(b.core, Act(c, limit, b, Work(step)).core, b.running, limit, step.task, child);
  }

  lemma DiscoveryKeepsLocated(c: Config, limit: nat, b: Bounded, step: Step)
    requires Shaped(c, b.core) && Located(b) && CanAct(c, limit, b, Work(step)) && step.Handle? && !Sends(c, step)
    ensures Located(Act(c, limit, b, Work(step)))
  {
    var b', l, child := Act(c, limit, b, Work(step)), step.task, Launch(step.edge.target, false);
    DiscoveryStacks(c, limit, b, step);
    Unplaced(b.core, b.running, child);
    forall x
      ensures Placed(b'.running, x) <==> x == child || Placed(b.running, x)
    {
      StartPlaces(b.running, limit, l, child, x);
    }
  }

  lemma ReadKeepsLocated(c: Config, limit: nat, b: Bounded, step: Step)
    requires Located(b) && CanAct(c, limit, b, Work(step)) && (step.Start? || step.Take?)
    ensures Located(Act(c, limit, b, Work(step)))
  {
    SamePlaces(b.core, Act(c, limit, b, Work(step)).core, b.running, step.task);
  }

  lemma StoreKeepsLocated(c: Config, limit: nat, b: Bounded, id: Node)
    requires Shaped(c, b.core) && Located(b) && CanAct(c, limit, b, Store(id))
    ensures Located(Act(c, limit, b, Store(id)))
  {
    var b' := Act(c, limit, b, Store(id));
    Unplaced(b.core, b.running, Launch(id, true));
    forall l | l in b.running
      ensures StackOk(b'.core, b.running, l)
    {
      assert StackOk(b.core, b.running, l);
    }
  }

  lemma GoKeepsLocated(c: Config, limit: nat, b: Bounded)
    requires Located(b) && CanAct(c, limit, b, Go)
    ensures Located(Act(c, limit, b, Go))
  {
    var b' := Act(c, limit, b, Go);
    var l := Launch(b.gate.id, true);
    forall m | m in b'.running
      ensures StackOk(b'.core, b'.running, m)
    {
      assert m in b.running ==> StackOk(b.core, b.running, m);
    }
    forall x | Placed(b.running, x)
      ensures Placed(b'.running, x)
    {
      if m :| m in b.running && x in b.running[m] {
        assert m in b'.running && x in b'.running[m];
      }
    }
  }

  lemma ActKeepsLocated(c: Config, limit: nat, b: Bounded, a: Action)
    requires Shaped(c, b.core) && Located(b) && CanAct(c, limit, b, a)
    ensures Located(Act(c, limit, b, a))
  {
    match a
    case Store(id) => StoreKeepsLocated(c, limit, b, id);
    case Go => GoKeepsLocated(c, limit, b);
    case Work(step) =>
      if Sends(c, step) || step.Finish? {
        ReturnKeepsLocated(c, limit, b, step);
      } else if step.Handle? {
        DiscoveryKeepsLocated(c, limit, b, step);
      } else {
        ReadKeepsLocated(c, limit, b, step);
      }
    case ReadFails(_) =>
    case Receive =>
  }

  // ---------------------------------------------------------------- how many messages there are

  /** The user's ids that some tuple with a true condition leads to. */
  ghost function Hittable(c: Config): set<Node> {
    set e | e in AllEdges(c.data) && e.accepted && e.target in c.base :: e.target
  }

  /** Before the channel is read it holds one message for every match. */
  ghost predicate Counted(c: Config, b: Bounded) {
    && b.matched <= Hittable(c) * b.core.claimed
    && (forall l, t :: Holds(b.core, l, t) ==> t !in b.matched)
    && (c.reliable && !Receiving(c, b) ==> |b.channel| == |b.matched|)
  }

  /** A message announces a match, and a match was announced. */
  ghost predicate Announced(b: Bounded) {
    && (true in b.channel || b.answered ==> b.core.found)
    && (b.core.found ==> b.answered || true in b.channel)
  }

  ghost predicate Failures(c: Config, b: Bounded) {
    && (c.reliable ==> b.failing == {})
    && (forall l :: l in b.failing && Alive(b.core, l) ==> b.core.tasks[l].Pending? || b.core.tasks[l].Scan?)
  }

  ghost predicate Limited(limit: nat, b: Bounded) {
    && |b.running| <= limit && |b.channel| <= limit
    // until the first seed has been started there is nothing
    && (b.core.seeded == (if b.gate.Waiting? then {b.gate.id} else {}) ==> b.running == map[] && b.channel == [])
    && (b.gate.Waiting? ==> b.gate.id in b.core.seeded)
  }

  lemma HoldsBefore(c: Config, s: State, step: Step, l: Launch, t: Node)
    requires Shaped(c, s) && Enabled(c, s, step) && Holds(Apply(c, s, step), l, t)
    ensures Holds(s, l, t) || t !in s.claimed
    ensures step.Handle? ==> t != step.edge.target
  {
    if step.Handle? {
      assert Holds(s, step.task, step.edge.target);
    }
  }

  lemma MatchKeepsCounted(c: Config, limit: nat, b: Bounded, step: Step)
    requires Shaped(c, b.core) && Counted(c, b) && CanAct(c, limit, b, Work(step)) && step.Handle? && Sends(c, step)
    ensures Counted(c, Act(c, limit, b, Work(step)))
  {
    var t := step.edge.target;
    assert Holds(b.core, step.task, t) && PhaseOk(c, b.core, step.task);
    EdgesKnown(c.data, step.task.id);
    assert t in Hittable(c) && t !in b.matched;
    forall l, u | Holds(Act(c, limit, b, Work(step)).core, l, u)
      ensures u !in b.matched + {t}
    {
      HoldsBefore(c, b.core, step, l, u);
    }
  }

  lemma ActKeepsCounted(c: Config, limit: nat, b: Bounded, a: Action)
    requires Shaped(c, b.core) && Counted(c, b) && Failures(c, b) && CanAct(c, limit, b, a)
    ensures Counted(c, Act(c, limit, b, a))
  {
    var b' := Act(c, limit, b, a);
    if a.Work? && a.step.Handle? && Sends(c, a.step) {
      MatchKeepsCounted(c, limit, b, a.step);
    } else if a.Work? || a.Store? {
      var step := if a.Work? then a.step else Seed(a.id);
      assert b'.core == Apply(c, b.core, step) && b'.matched == b.matched && b.core.claimed <= b'.core.claimed;
      forall l, t | Holds(b'.core, l, t)
        ensures t !in b.matched
      {
        HoldsBefore(c, b.core, step, l, t);
      }
    }
  }

  lemma ActKeepsAnnounced(c: Config, limit: nat, b: Bounded, a: Action)
    requires Announced(b) && CanAct(c, limit, b, a)
    ensures Announced(Act(c, limit, b, a))
  {
    if a.Receive? {
      assert b.channel == [b.channel[0]] + b.channel[1..];
    }
  }

  lemma ActKeepsFailures(c: Config, limit: nat, b: Bounded, a: Action)
    requires Shaped(c, b.core) && Failures(c, b) && CanAct(c, limit, b, a)
    ensures Failures(c, Act(c, limit, b, a))
  {
  }

  lemma StartedSize(running: map<Launch, seq<Launch>>, limit: nat, l: Launch, child: Launch)
    requires l in running && |running| <= limit && child !in running
    ensures |Started(running, limit, l, child)| <= limit
  {
    assert (running - {l}).Keys == running.Keys - {l};
    assert |running - {l}| == |running| - 1;
  }

  lemma ReturnedSize(running: map<Launch, seq<Launch>>, l: Launch)
    requires l in running && forall x :: x in running[l] ==> x !in running
    ensures |Returned(running, l)| <= |running|
  {
    assert (running - {l}).Keys == running.Keys - {l};
    assert |running - {l}| == |running| - 1;
  }

  lemma ActKeepsLimited(c: Config, limit: nat, b: Bounded, a: Action)
    requires Shaped(c, b.core) && Located(b) && Limited(limit, b) && CanAct(c, limit, b, a)
    ensures Limited(limit, Act(c, limit, b, a))
  {
    if a.Work? {
      var l := a.step.task;
      assert StackOk(b.core, b.running, l);
      ReturnedSize(b.running, l);
      if a.step.Handle? && !Sends(c, a.step) {
        Unplaced(b.core, b.running, Launch(a.step.edge.target, false));
        StartedSize(b.running, limit, l, Launch(a.step.edge.target, false));
      }
    }
  }

  // ---------------------------------------------------------------- whole runs

  ghost predicate BoundedOk(c: Config, limit: nat, b: Bounded) {
    Invariant(c, b.core) && Located(b) && Counted(c, b) && Announced(b) && Failures(c, b) && Limited(limit, b)
  }

  lemma BeginIsOk(c: Config, limit: nat)
    ensures BoundedOk(c, limit, Begin())
  {
  }

  /** Every action is a step of the search without bounds, or leaves that as it is. */
  lemma ActRefines(c: Config, limit: nat, b: Bounded, a: Action)
    requires Invariant(c, b.core) && CanAct(c, limit, b, a) && c.data.seeds !! c.base
    ensures Invariant(c, Act(c, limit, b, a).core)
  {
    if a.Work? {
      StepKeepsInvariant(c, b.core, a.step);
    } else if a.Store? {
      StepKeepsInvariant(c, b.core, Seed(a.id));
    }
  }

  lemma ActKeepsOk(c: Config, limit: nat, b: Bounded, a: Action)
    requires BoundedOk(c, limit, b) && CanAct(c, limit, b, a) && c.data.seeds !! c.base
    ensures BoundedOk(c, limit, Act(c, limit, b, a))
  {
    ActRefines(c, limit, b, a);
    ActKeepsLocated(c, limit, b, a);
    ActKeepsCounted(c, limit, b, a);
    ActKeepsAnnounced(c, limit, b, a);
    ActKeepsFailures(c, limit, b, a);
    ActKeepsLimited(c, limit, b, a);
  }

  lemma {:induction false} ActsKeepOk(c: Config, limit: nat, b: Bounded, actions: seq<Action>, b': Bounded)
    requires BoundedOk(c, limit, b) && Acts(c, limit, b, actions, b') && c.data.seeds !! c.base
    ensures BoundedOk(c, limit, b')
    decreases |actions|
  {
    if actions != [] {
      ActKeepsOk(c, limit, b, actions[0]);
      ActsKeepOk(c, limit, Act(c, limit, b, actions[0]), actions[1..], b');
    }
  }

  lemma ReachableIsOk(c: Config, limit: nat, b: Bounded)
    requires Reachable(c, limit, b) && c.data.seeds !! c.base
    ensures BoundedOk(c, limit, b)
  {
    BeginIsOk(c, limit);
    var actions :| Acts(c, limit, Begin(), actions, b);
    ActsKeepOk(c, limit, Begin(), actions, b);
  }

  /** A search that is over without a match has no worker left and announced none. */
  lemma OverIsQuiescent(c: Config, limit: nat, b: Bounded)
    requires BoundedOk(c, limit, b) && Over(c, b)
    ensures b.answered == b.core.found
    ensures !b.answered ==> Quiescent(c, b.core)
  {
    if !b.answered {
      forall l | l in b.core.tasks
        ensures b.core.tasks[l].Done?
      {
        assert Alive(b.core, l) ==> Placed(b.running, l);
      }
    }
  }

  /** What a search that is over says: a match is real, and on a safe store its absence is too. */
  lemma OverIsExact(c: Config, limit: nat, b: Bounded)
    requires BoundedOk(c, limit, b) && Over(c, b)
    ensures b.answered ==> SomeReaches(Accepted(c.data), c.data.seeds, c.base)
    ensures !b.answered && !b.core.failed && Safe(c.data) ==> !SomeReaches(Accepted(c.data), c.data.seeds, c.base)
    ensures c.reliable ==> !b.core.failed
  {
    OverIsQuiescent(c, limit, b);
    if !b.answered && !b.core.failed && Safe(c.data) {
      QuiescentIsExact(c, b.core);
    }
  }

  /** What every action makes smaller. */
  lemma ActShrinks(c: Config, limit: nat, b: Bounded, a: Action)
    requires BoundedOk(c, limit, b) && CanAct(c, limit, b, a)
    ensures var b' := Act(c, limit, b, a);
            || |OpenSteps(c, b'.core)| < |OpenSteps(c, b.core)|
            || (b'.core == b.core && b.gate.Waiting? && b'.gate.Open?)
            || (b'.core == b.core && b'.gate == b.gate && b.running.Keys - b'.failing < b.running.Keys - b.failing)
            || (&& b'.(channel := [], answered := false) == b.(channel := [], answered := false)
                && |b'.channel| < |b.channel|)
    ensures Act(c, limit, b, a).core == b.core && Act(c, limit, b, a).gate == b.gate ==>
              Act(c, limit, b, a).running == b.running
  {
    if a.Work? {
      StepShrinks(c, b.core, a.step);
    } else if a.Store? {
      StepShrinks(c, b.core, Seed(a.id));
    }
  }

  /** A running worker that has something to send, and no place to put it. */
  predicate Stalled(c: Config, b: Bounded, l: Launch) {
    l in b.core.tasks &&
    (l in b.failing || (b.core.tasks[l].Hold? && b.core.tasks[l].edge.target in c.base))
  }

  /** A worker that is not stalled can go on, and one that is can as soon as the channel has a place. */
  lemma WorkerGoesOn(c: Config, limit: nat, b: Bounded, l: Launch) returns (a: Action)
    requires BoundedOk(c, limit, b) && l in b.running && !b.answered
    requires Stalled(c, b, l) ==> |b.channel| < limit
    ensures CanAct(c, limit, b, a)
  {
    assert StackOk(b.core, b.running, l);
    if l in b.failing {
      return Work(Fail(l));
    }
    match b.core.tasks[l]
    case Pending => a := Work(Start(l));
    case Hold(e, _) => a := Work(Handle(l, e));
    case Scan(rest) =>
      if rest == {} {
        a := Work(Finish(l));
      } else {
        var e :| e in rest;
        a := Work(Take(l, e));
      }
  }

  /** A seed waits for a place, all places are taken, and every worker waits to send into a full channel. */
  ghost predicate Jammed(c: Config, limit: nat, b: Bounded) {
    && !b.answered && b.gate.Waiting? && |b.running| == limit
    && forall l :: l in b.running ==> Stalled(c, b, l) && |b.channel| == limit
  }

  lemma BlockedWorker(c: Config, limit: nat, b: Bounded, l: Launch)
    requires BoundedOk(c, limit, b) && Blocked(c, limit, b) && l in b.running
    ensures Stalled(c, b, l) && |b.channel| == limit
  {
    if !Stalled(c, b, l) || |b.channel| != limit {
      var a := WorkerGoesOn(c, limit, b, l);
      assert false;
    }
  }

  lemma BlockedReceives(c: Config, limit: nat, b: Bounded)
    requires Shaped(c, b.core) && Blocked(c, limit, b) && b.gate.Open?
    ensures b.channel == [] && b.running != map[]
  {
    forall x | x in c.data.seeds
      ensures x in b.core.seeded
    {
      assert !CanAct(c, limit, b, Store(x));
    }
    assert Receiving(c, b) && !CanAct(c, limit, b, Receive);
  }

  lemma BlockedGate(c: Config, limit: nat, b: Bounded)
    requires BoundedOk(c, limit, b) && Blocked(c, limit, b)
    ensures b.gate.Waiting? && |b.running| == limit
  {
    assert !CanAct(c, limit, b, Go);
    if b.gate.Open? {
      BlockedReceives(c, limit, b);
      var l :| l in b.running;
      BlockedWorker(c, limit, b, l);
    }
  }

  lemma JammedCannotAct(c: Config, limit: nat, b: Bounded, a: Action)
    requires Jammed(c, limit, b) && Failures(c, b)
    ensures !CanAct(c, limit, b, a)
  {
    if a.Work? && !a.step.Seed? && a.step.task in b.running {
      assert Stalled(c, b, a.step.task);
    } else if a.ReadFails? && a.task in b.running {
      assert Stalled(c, b, a.task);
    }
  }

  /** The one way to block. */
  lemma BlockedIffJammed(c: Config, limit: nat, b: Bounded)
    requires BoundedOk(c, limit, b)
    ensures Blocked(c, limit, b) <==> Jammed(c, limit, b)
  {
    if Blocked(c, limit, b) {
      BlockedGate(c, limit, b);
      forall l | l in b.running
        ensures Stalled(c, b, l) && |b.channel| == limit
      {
        BlockedWorker(c, limit, b, l);
      }
    } else if Jammed(c, limit, b) {
      forall a
        ensures !CanAct(c, limit, b, a)
      {
        JammedCannotAct(c, limit, b, a);
      }
    }
  }

  // ---------------------------------------------------------------- when the search cannot block

  function HeldTarget(s: State, l: Launch): Node {
    if l in s.tasks && s.tasks[l].Hold? then s.tasks[l].edge.target else 0
  }

  /** Different workers hold different ids. */
  lemma {:induction false} HeldAreDistinct(c: Config, s: State, K: set<Launch>)
    requires Shaped(c, s) && forall l :: l in K ==> l in s.tasks && s.tasks[l].Hold?
    ensures |set l | l in K :: HeldTarget(s, l)| == |K|
    decreases |K|
  {
    if K != {} {
      var k :| k in K;
      HeldAreDistinct(c, s, K - {k});
      var T := set l | l in K - {k} :: HeldTarget(s, l);
      assert (set l | l in K :: HeldTarget(s, l)) == T + {HeldTarget(s, k)};
      forall l | l in K - {k}
        ensures HeldTarget(s, l) != HeldTarget(s, k)
      {
        assert Holds(s, l, HeldTarget(s, l)) && Holds(s, k, HeldTarget(s, k));
      }
    }
  }

  lemma StalledHolds(c: Config, b: Bounded, l: Launch)
    requires Shaped(c, b.core) && Counted(c, b) && Failures(c, b) && c.reliable && Stalled(c, b, l)
    ensures b.core.tasks[l].Hold? && HeldTarget(b.core, l) in Hittable(c) && HeldTarget(b.core, l) !in b.matched
  {
    assert PhaseOk(c, b.core, l);
    EdgesKnown(c.data, l.id);
    assert Holds(b.core, l, HeldTarget(b.core, l));
  }

  lemma ManyMatches(c: Config, b: Bounded, K: set<Launch>)
    requires Shaped(c, b.core) && Counted(c, b) && Failures(c, b) && c.reliable
    requires forall l :: l in K ==> Stalled(c, b, l)
    ensures |K| + |b.matched| <= |Hittable(c)|
  {
    forall l | l in K
      ensures b.core.tasks[l].Hold? && HeldTarget(b.core, l) in Hittable(c) && HeldTarget(b.core, l) !in b.matched
    {
      StalledHolds(c, b, l);
    }
    HeldAreDistinct(c, b.core, K);
    var T := set l | l in K :: HeldTarget(b.core, l);
    assert |T + b.matched| == |T| + |b.matched|;
    Subset(T + b.matched, Hittable(c));
  }

  /** A blocked search has found, in its channel and in its workers' hands, twice `limit` ids of the user. */
  lemma JammedHasManyMatches(c: Config, limit: nat, b: Bounded)
    requires BoundedOk(c, limit, b) && Jammed(c, limit, b) && c.reliable && limit > 0
    ensures |Hittable(c)| >= 2 * limit
  {
    ManyMatches(c, b, b.running.Keys);
    assert b.running != map[];
    var l :| l in b.running;
    assert |b.channel| == limit && !Receiving(c, b);
  }

  lemma JammedHasTwoSeeds(c: Config, limit: nat, b: Bounded)
    requires BoundedOk(c, limit, b) && Jammed(c, limit, b) && limit > 0
    ensures |c.data.seeds| >= 2
  {
    var z := b.gate.id;
    assert b.core.seeded != {z} && z in b.core.seeded;
    var y :| y in b.core.seeded && y != z;
    Subset({y, z}, c.data.seeds);
  }

  /** Nothing to start, or a limit that leaves room: one seed, or fewer than twice `limit` ids to be found. */
  ghost predicate Roomy(c: Config, limit: nat) {
    c.data.seeds == {} || (limit > 0 && (|c.data.seeds| == 1 || |Hittable(c)| < 2 * limit))
  }

  lemma JammedIsNotRoomy(c: Config, limit: nat, b: Bounded)
    requires BoundedOk(c, limit, b) && Jammed(c, limit, b) && c.reliable
    ensures !Roomy(c, limit)
  {
    assert b.gate.id in c.data.seeds;
    if limit > 0 {
      JammedHasManyMatches(c, limit, b);
      JammedHasTwoSeeds(c, limit, b);
    }
  }

  /** In every run of a roomy search with reliable reads something can happen until it is over. */
  lemma RoomyNeverBlocks(c: Config, limit: nat)
    requires c.data.seeds !! c.base && c.reliable && Roomy(c, limit)
    ensures !CanBlock(c, limit)
  {
    forall b | Reachable(c, limit, b)
      ensures !Blocked(c, limit, b)
    {
      ReachableIsOk(c, limit, b);
      BlockedIffJammed(c, limit, b);
      if Jammed(c, limit, b) {
        JammedIsNotRoomy(c, limit, b);
      }
    }
  }
}
