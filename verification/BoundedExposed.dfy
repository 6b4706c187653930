/**
 The bounded search is exact on the same stores as the search without bounds, whatever the limit: an id that a
 rejected tuple may claim first is missed by a run that goes down to that tuple before it does anything else.
 */
module BoundedExposed {
  import opened Reachability
  import opened WorkSharing
  import opened WorkSharingExact
  import opened BoundedSearch
  import BoundedBlocked
  import WorkSharingExposed

  // ---------------------------------------------------------------- chains without repeats

  ghost predicate Simple(p: seq<Node>) {
    forall i, j :: 0 <= i < j < |p| ==> p[i] != p[j]
  }

  lemma {:induction false} PathTail(g: Graph, p: seq<Node>, k: nat)
    requires Path(g, p) && k < |p|
    ensures Path(g, p[k..])
    decreases k
  {
    if k == 0 {
      assert p[0..] == p;
    } else {
      PathTail(g, p[1..], k - 1);
      assert p[1..][k - 1..] == p[k..];
    }
  }

  lemma {:induction false} Shorten(g: Graph, p: seq<Node>) returns (q: seq<Node>)
    requires Path(g, p)
    ensures Path(g, q) && q[0] == p[0] && q[|q| - 1] == p[|p| - 1] && Simple(q) && forall x :: x in q ==> x in p
    decreases |p|
  {
    if |p| == 1 {
      return p;
    }
    var rest := Shorten(g, p[1..]);
    if p[0] in rest {
      var k: nat :| k < |rest| && rest[k] == p[0];
      PathTail(g, rest, k);
      q := rest[k..];
    } else {
      q := [p[0]] + rest;
      assert q[1..] == rest;
    }
    forall x | x in q
      ensures x in p
    {
      assert x == p[0] || x in p[1..];
    }
  }

  // ---------------------------------------------------------------- going down the chain

  function At(p: seq<Node>, i: nat): Launch
    requires i < |p|
  {
    Launch(p[i], i == 0)
  }

  /** Nothing but the chain has been touched, and every launch on it is reading. */
  ghost predicate OnlyChain(s: State, p: seq<Node>, i: nat) {
    && i < |p| && s.seeded == {p[0]} && !s.found && !s.failed
    && (forall x :: x in s.claimed ==> x in p[..i + 1])
    && (forall l :: l in s.tasks ==> s.tasks[l].Scan? && l.id in p[..i + 1])
  }

  /** The search has come down to the i-th id of the chain, whose tuples are all unread. */
  ghost predicate Descended(c: Config, limit: nat, b: Bounded, p: seq<Node>, i: nat) {
    && Reachable(c, limit, b) && !b.answered && b.failing == {} && OnlyChain(b.core, p, i)
    && At(p, i) in b.running && At(p, i) in b.core.tasks && b.core.tasks[At(p, i)] == Scan(Edges(c.data, p[i]))
  }

  lemma SetOut(c: Config, limit: nat, p: seq<Node>) returns (b: Bounded)
    requires limit > 0 && p != [] && p[0] in c.data.seeds
    ensures Descended(c, limit, b, p, 0)
  {
    assert Acts(c, limit, Begin(), [], Begin());
    ReachNext(c, limit, Begin(), Store(p[0]));
    var b1 := Act(c, limit, Begin(), Store(p[0]));
    ReachNext(c, limit, b1, Go);
    var b2 := Act(c, limit, b1, Go);
    BoundedBlocked.StartReading(c, limit, b2, At(p, 0));
    b := BoundedBlocked.Reading(c, b2, At(p, 0));
    assert p[..1] == [p[0]];
  }

  lemma NextIsNew(s: State, p: seq<Node>, i: nat, x: Node)
    requires OnlyChain(s, p, i) && x !in p[..i + 1]
    ensures x !in s.Visited()
  {
    assert p[0] in p[..i + 1];
  }

  lemma ChainGrows(s: State, s': State, p: seq<Node>, i: nat, rest: set<Edge>, all: set<Edge>)
    requires OnlyChain(s, p, i) && i + 1 < |p|
    requires s' == s.(claimed := s.claimed + {p[i + 1]},
                      tasks := s.tasks[At(p, i) := Scan(rest)][At(p, i + 1) := Scan(all)])
    ensures OnlyChain(s', p, i + 1)
  {
    assert p[..i + 2] == p[..i + 1] + [p[i + 1]] && p[i] in p[..i + 1];
  }

  /** A worker finds a new id and hands it on, and the id's own tuples are read at once. */
  lemma GoDown(c: Config, limit: nat, b: Bounded, l: Launch, e: Edge) returns (b': Bounded)
    requires Reachable(c, limit, b) && !b.answered && b.failing == {} && l in b.running && l in b.core.tasks
    requires b.core.tasks[l] == Scan(Edges(c.data, l.id)) && e in Edges(c.data, l.id)
    requires e.accepted && e.target !in b.core.Visited() && e.target !in c.base
    ensures var child := Launch(e.target, false);
            && Reachable(c, limit, b') && !b'.answered && b'.failing == {} && child in b'.running
            && b'.core == b.core.(claimed := b.core.claimed + {e.target},
                                  tasks := b.core.tasks[l := Scan(Edges(c.data, l.id) - {e})]
                                                       [child := Scan(Edges(c.data, e.target))])
  {
    var rest, child := Edges(c.data, l.id) - {e}, Launch(e.target, false);
    assert rest + {e} == Edges(c.data, l.id);
    BoundedBlocked.TakeNew(c, limit, b, l, e, rest);
    var b1 := BoundedBlocked.Held(b, l, e, rest);
    BoundedBlocked.HandOn(c, limit, b1, l, e, rest);
    var b2 := BoundedBlocked.HandedOn(b1, limit, l, e, rest);
    BoundedBlocked.StartReading(c, limit, b2, child);
    b' := BoundedBlocked.Reading(c, b2, child);
    assert b'.core.tasks == b.core.tasks[l := Scan(rest)][child := Scan(Edges(c.data, e.target))];
  }

  lemma Descend(c: Config, limit: nat, b: Bounded, p: seq<Node>, i: nat) returns (b': Bounded)
    requires Descended(c, limit, b, p, i) && i + 1 < |p| && Simple(p) && Path(Accepted(c.data), p)
    requires forall x :: x in p ==> x !in c.base
    ensures Descended(c, limit, b', p, i + 1)
  {
    var e := Edge(p[i + 1], true);
    PathEdge(Accepted(c.data), p, i);
    AcceptedEdge(c.data, p[i], p[i + 1]);
    NextIsNew(b.core, p, i, p[i + 1]);
    b' := GoDown(c, limit, b, At(p, i), e);
    ChainGrows(b.core, b'.core, p, i, Edges(c.data, p[i]) - {e}, Edges(c.data, p[i + 1]));
  }

  lemma {:induction false} DescendTo(c: Config, limit: nat, p: seq<Node>, i: nat) returns (b: Bounded)
    requires limit > 0 && i < |p| && p[0] in c.data.seeds && Simple(p) && Path(Accepted(c.data), p)
    requires forall x :: x in p ==> x !in c.base
    ensures Descended(c, limit, b, p, i)
    decreases i
  {
    if i == 0 {
      b := SetOut(c, limit, p);
    } else {
      b := DescendTo(c, limit, p, i - 1);
      b := Descend(c, limit, b, p, i - 1);
    }
  }

  // ---------------------------------------------------------------- losing the id

  /** The id is lost, and nothing has been found or has failed. */
  ghost predicate Losing(c: Config, limit: nat, b: Bounded, t: Node) {
    Reachable(c, limit, b) && WorkSharingExposed.Lost(c, b.core, t) && !b.core.found && !b.core.failed
  }

  lemma Lose(c: Config, limit: nat, b: Bounded, p: seq<Node>, t: Node) returns (b': Bounded)
    requires p != [] && Descended(c, limit, b, p, |p| - 1) && t !in p && t !in c.data.seeds
    requires Edge(t, false) in Edges(c.data, p[|p| - 1])
    ensures Losing(c, limit, b', t)
  {
    var i: nat := |p| - 1;
    var a := Work(Take(At(p, i), Edge(t, false)));
    NextIsNew(b.core, p, i, t);
    ReachNext(c, limit, b, a);
    b' := Act(c, limit, b, a);
    assert forall l :: l in b'.core.tasks ==> b'.core.tasks[l].Scan? && l.id in p;
  }

  lemma ActKeepsLosing(c: Config, limit: nat, b: Bounded, a: Action, t: Node)
    requires Losing(c, limit, b, t) && Shaped(c, b.core) && CanAct(c, limit, b, a) && c.base == {t} && c.reliable
    ensures Losing(c, limit, Act(c, limit, b, a), t)
  {
    ReachNext(c, limit, b, a);
    if a.Work? {
      WorkSharingExposed.StepKeepsLost(c, b.core, a.step, t);
    } else if a.Store? {
      WorkSharingExposed.StepKeepsLost(c, b.core, Seed(a.id), t);
    }
  }

  lemma {:induction false} RunOver(c: Config, limit: nat, b: Bounded, t: Node) returns (b': Bounded)
    requires Losing(c, limit, b, t) && c.base == {t} && c.data.seeds !! c.base && c.reliable && !CanBlock(c, limit)
    ensures Losing(c, limit, b', t) && Over(c, b')
    decreases |OpenSteps(c, b.core)|, b.gate.Waiting?, b.running.Keys - b.failing, |b.channel|
  {
    if Over(c, b) {
      return b;
    }
    ReachableIsOk(c, limit, b);
    assert !Blocked(c, limit, b);
    var a :| CanAct(c, limit, b, a);
    ActShrinks(c, limit, b, a);
    ActKeepsLosing(c, limit, b, a, t);
    b' := RunOver(c, limit, Act(c, limit, b, a), t);
  }

  lemma OneHitIsRoomy(c: Config, limit: nat, t: Node)
    requires c.base == {t} && limit > 0
    ensures Roomy(c, limit)
  {
    Subset(Hittable(c), c.base);
  }

  /** Whatever the limit, some run is over without an error and without the match it should have found. */
  lemma ExposedIsMissed(c: Config, limit: nat, t: Node) returns (b: Bounded)
    requires Exposed(c.data, t) && c.base == {t} && c.reliable && limit > 0
    ensures Reachable(c, limit, b) && Over(c, b) && !b.answered && !b.core.failed
  {
    var p, y :| RejectedAt(c.data, t, p, y);
    var q := Shorten(Accepted(c.data), p);
    b := DescendTo(c, limit, q, |q| - 1);
    b := Lose(c, limit, b, q, t);
    OneHitIsRoomy(c, limit, t);
    RoomyNeverBlocks(c, limit);
    b := RunOver(c, limit, b, t);
    ReachableIsOk(c, limit, b);
    OverIsQuiescent(c, limit, b);
  }

  // ---------------------------------------------------------------- the condition

  /** Every bounded run that is over and does not end with an error gives the right answer. */
  ghost predicate BoundedExact(c: Config, limit: nat) {
    forall b :: Reachable(c, limit, b) && Over(c, b) && (b.answered || !b.core.failed) ==>
                  (b.answered <==> SomeReaches(Accepted(c.data), c.data.seeds, c.base))
  }

  /** Under every limit, the search is exact for every user exactly on the safe stores. */
  lemma BoundedExactIffSafe(d: Data, limit: nat)
    requires limit > 0
    ensures Safe(d) <==> forall c: Config :: c.data == d && d.seeds !! c.base ==> BoundedExact(c, limit)
  {
    if Safe(d) {
      forall c: Config, b
        | c.data == d && d.seeds !! c.base && Reachable(c, limit, b) && Over(c, b) && (b.answered || !b.core.failed)
        ensures b.answered <==> SomeReaches(Accepted(d), d.seeds, c.base)
      {
        ReachableIsOk(c, limit, b);
        OverIsExact(c, limit, b);
      }
    } else {
      var t :| Exposed(d, t) && Reached(d, t);
      var c := Config(d, {t}, true);
      var b := ExposedIsMissed(c, limit, t);
      ReachedBase(c, t);
      assert !BoundedExact(c, limit);
    }
  }
}
