/**
 For which limits, seeds and user ids the bounded search can block on some store. The converse of
 `RoomyNeverBlocks` is shown on a store in which one seed leads to as many objects as there are user
 ids to be found, each of which leads to one of those: the workers fill the channel, then all of them
 wait to send, and the second seed is never started.
 */
module BoundedBlocked {
  import opened Reachability
  import opened WorkSharing
  import opened WorkSharingExact
  import opened BoundedSearch

  // ---------------------------------------------------------------- single moves

  /** A worker takes hold of an id that is new. */
  function Held(b: Bounded, l: Launch, e: Edge, rest: set<Edge>): Bounded {
    b.(core := b.core.(claimed := b.core.claimed + {e.target}, tasks := b.core.tasks[l := Hold(e, rest)]))
  }

  lemma TakeNew(c: Config, limit: nat, b: Bounded, l: Launch, e: Edge, rest: set<Edge>)
    requires Reachable(c, limit, b) && !b.answered && l in b.running && l !in b.failing
    requires l in b.core.tasks && b.core.tasks[l] == Scan(rest + {e}) && e !in rest
    requires e.accepted && e.target !in b.core.Visited()
    ensures Reachable(c, limit, Held(b, l, e, rest))
  {
    ReachNext(c, limit, b, Work(Take(l, e)));
    assert rest + {e} - {e} == rest;
  }

  /** A worker that holds an id that is not one of the user's hands it on. */
  function HandedOn(b: Bounded, limit: nat, l: Launch, e: Edge, rest: set<Edge>): Bounded
    requires l in b.running
  {
    var child := Launch(e.target, false);
    b.(core := b.core.(tasks := b.core.tasks[l := Scan(rest)][child := Pending]),
       running := Started(b.running, limit, l, child))
  }

  lemma HandOn(c: Config, limit: nat, b: Bounded, l: Launch, e: Edge, rest: set<Edge>)
    requires Reachable(c, limit, b) && !b.answered && l in b.running && l !in b.failing
    requires l in b.core.tasks && b.core.tasks[l] == Hold(e, rest) && e.target !in c.base
    ensures Reachable(c, limit, HandedOn(b, limit, l, e, rest))
  {
    ReachNext(c, limit, b, Work(Handle(l, e)));
  }

  /** A worker starts to read. */
  function Reading(c: Config, b: Bounded, l: Launch): Bounded {
    b.(core := b.core.(tasks := b.core.tasks[l := Scan(Edges(c.data, l.id))]))
  }

  lemma StartReading(c: Config, limit: nat, b: Bounded, l: Launch)
    requires Reachable(c, limit, b) && !b.answered && l in b.running && l !in b.failing
    requires l in b.core.tasks && b.core.tasks[l].Pending?
    ensures Reachable(c, limit, Reading(c, b, l))
  {
    ReachNext(c, limit, b, Work(Start(l)));
  }

  // ---------------------------------------------------------------- a store that blocks

  /** The seed `hub` leads to all of `spokes`, and each of these to the entry of `hits` at its place. */
  datatype Fan = Fan(hub: Node, other: Node, spokes: seq<Node>, hits: seq<Node>)

  function Spoke(f: Fan, i: nat): Edge
    requires i < |f.spokes|
  {
    Edge(f.spokes[i], true)
  }

  function SpokesFrom(f: Fan, n: nat): set<Edge> {
    set i: nat | n <= i < |f.spokes| :: Spoke(f, i)
  }

  ghost predicate Distinct(s: seq<Node>) {
    forall i, j :: 0 <= i < j < |s| ==> s[i] != s[j]
  }

  ghost predicate Fans(c: Config, f: Fan) {
    && c.reliable && f.hub != f.other && f.hub in c.data.seeds && f.other in c.data.seeds && c.data.seeds !! c.base
    && |f.spokes| == |f.hits| && Distinct(f.spokes) && Distinct(f.hits)
    && Edges(c.data, f.hub) == SpokesFrom(f, 0)
    && (forall i :: 0 <= i < |f.spokes| ==> f.spokes[i] !in c.data.seeds && f.spokes[i] !in c.base)
    && (forall i :: 0 <= i < |f.hits| ==> f.hits[i] in c.base)
    && (forall i :: 0 <= i < |f.spokes| ==> Edges(c.data, f.spokes[i]) == {Edge(f.hits[i], true)})
  }

  function Hub(f: Fan): Launch {
    Launch(f.hub, true)
  }

  function Rim(f: Fan, i: nat): Launch
    requires i < |f.spokes|
  {
    Launch(f.spokes[i], false)
  }

  ghost predicate Untouched(f: Fan, s: State, n: nat)
    requires |f.spokes| == |f.hits|
  {
    forall i :: n <= i < |f.spokes| ==> f.spokes[i] !in s.claimed && f.hits[i] !in s.claimed
  }

  /** The hub is running and has dealt with the first `n` of its tuples; the other seed waits for a place. */
  ghost predicate Fanned(c: Config, limit: nat, f: Fan, b: Bounded, n: nat) {
    && Fans(c, f) && n <= |f.spokes| && Reachable(c, limit, b)
    && !b.answered && b.gate == Waiting(f.other) && b.failing == {} && b.core.seeded == {f.hub, f.other}
    && Hub(f) in b.core.tasks && b.core.tasks[Hub(f)] == Scan(SpokesFrom(f, n))
    && Hub(f) in b.running && b.running[Hub(f)] == []
    && Untouched(f, b.core, n)
  }

  lemma SpokesShrink(f: Fan, n: nat)
    requires n < |f.spokes| && Distinct(f.spokes)
    ensures SpokesFrom(f, n) == SpokesFrom(f, n + 1) + {Spoke(f, n)} && Spoke(f, n) !in SpokesFrom(f, n + 1)
  {
    forall e | e in SpokesFrom(f, n)
      ensures e in SpokesFrom(f, n + 1) + {Spoke(f, n)}
    {
      var i: nat :| n <= i < |f.spokes| && Spoke(f, i) == e;
      assert i == n || n + 1 <= i;
    }
  }

  /** The state after the hub has found the n-th spoke and that the hit it leads to. */
  function Found(f: Fan, limit: nat, b: Bounded, n: nat): Bounded
    requires n < |f.spokes| == |f.hits| && Hub(f) in b.running
  {
    b.(core := b.core.(claimed := b.core.claimed + {f.spokes[n], f.hits[n]},
                       tasks := b.core.tasks[Hub(f) := Scan(SpokesFrom(f, n + 1))]
                                            [Rim(f, n) := Hold(Edge(f.hits[n], true), {})]),
       running := Started(b.running, limit, Hub(f), Rim(f, n)))
  }

  lemma FindSpoke(c: Config, limit: nat, f: Fan, b: Bounded, n: nat) returns (b': Bounded)
    requires Fanned(c, limit, f, b, n) && n < |f.spokes|
    ensures Reachable(c, limit, b')
    ensures b' == b.(core := b.core.(claimed := b.core.claimed + {f.spokes[n]},
                                     tasks := b.core.tasks[Hub(f) := Scan(SpokesFrom(f, n + 1))][Rim(f, n) := Pending]),
                     running := Started(b.running, limit, Hub(f), Rim(f, n)))
  {
    var e, rest := Spoke(f, n), SpokesFrom(f, n + 1);
    SpokesShrink(f, n);
    TakeNew(c, limit, b, Hub(f), e, rest);
    HandOn(c, limit, Held(b, Hub(f), e, rest), Hub(f), e, rest);
    b' := HandedOn(Held(b, Hub(f), e, rest), limit, Hub(f), e, rest);
    assert b'.core.tasks == b.core.tasks[Hub(f) := Scan(rest)][Rim(f, n) := Pending];
  }

  lemma FindHit(c: Config, limit: nat, b: Bounded, l: Launch, e: Edge)
    requires Reachable(c, limit, b) && !b.answered && l in b.running && l !in b.failing
    requires l in b.core.tasks && b.core.tasks[l].Pending? && Edges(c.data, l.id) == {e}
    requires e.accepted && e.target !in b.core.Visited()
    ensures Reachable(c, limit, Held(b, l, e, {}))
  {
    StartReading(c, limit, b, l);
    assert {e} == {} + {e};
    TakeNew(c, limit, Reading(c, b, l), l, e, {});
    assert Held(Reading(c, b, l), l, e, {}) == Held(b, l, e, {}) by {
      assert b.core.tasks[l := Scan({e})][l := Hold(e, {})] == b.core.tasks[l := Hold(e, {})];
    }
  }

  lemma FindNext(c: Config, limit: nat, f: Fan, b: Bounded, n: nat)
    requires Fanned(c, limit, f, b, n) && n < |f.spokes|
    ensures Reachable(c, limit, Found(f, limit, b, n))
  {
    var b1 := FindSpoke(c, limit, f, b, n);
    var e := Edge(f.hits[n], true);
    FindHit(c, limit, b1, Rim(f, n), e);
    assert Held(b1, Rim(f, n), e, {}) == Found(f, limit, b, n) by {
      assert b1.core.tasks[Rim(f, n) := Hold(e, {})] == Found(f, limit, b, n).core.tasks;
      assert b1.core.claimed + {e.target} == Found(f, limit, b, n).core.claimed;
    }
  }

  /** Every running worker but the hub's waits to send. */
  ghost predicate OthersStalled(c: Config, f: Fan, b: Bounded) {
    forall l :: l in b.running && l != Hub(f) ==> Stalled(c, b, l)
  }

  lemma RimIsNew(c: Config, limit: nat, f: Fan, b: Bounded, n: nat)
    requires Fanned(c, limit, f, b, n) && n < |f.spokes|
    ensures Rim(f, n) !in b.core.tasks && Rim(f, n) !in b.running && Hub(f) != Rim(f, n)
  {
    ReachableIsOk(c, limit, b);
    Unplaced(b.core, b.running, Rim(f, n));
  }

  lemma FoundUntouched(f: Fan, c: Config, s: State, s': State, n: nat)
    requires Fans(c, f) && n < |f.spokes| && Untouched(f, s, n) && s'.claimed == s.claimed + {f.spokes[n], f.hits[n]}
    ensures Untouched(f, s', n + 1)
  {
  }

  /** A worker that holds an id of the user's sends and returns. */
  function Sent(b: Bounded, l: Launch, e: Edge): Bounded
    requires l in b.running
  {
    b.(core := b.core.(found := true, tasks := b.core.tasks[l := Done]), running := Returned(b.running, l),
       channel := b.channel + [true], matched := b.matched + {e.target})
  }

  lemma SendHit(c: Config, limit: nat, b: Bounded, l: Launch, e: Edge)
    requires Reachable(c, limit, b) && !b.answered && l in b.running && l !in b.failing && |b.channel| < limit
    requires l in b.core.tasks && b.core.tasks[l] == Hold(e, {}) && e.target in c.base
    ensures Reachable(c, limit, Sent(b, l, e))
  {
    ReachNext(c, limit, b, Work(Handle(l, e)));
  }

  lemma AloneAgain(limit: nat, hub: Launch, rim: Launch)
    requires hub != rim
    ensures rim in Started(map[hub := []], limit, hub, rim)
    ensures Returned(Started(map[hub := []], limit, hub, rim), rim) == map[hub := []]
  {
  }

  /** While the channel has a place, the match is sent and the hub goes on alone. */
  lemma SendRound(c: Config, limit: nat, f: Fan, b: Bounded, n: nat) returns (b': Bounded)
    requires Fanned(c, limit, f, b, n) && n < |f.spokes| && b.running == map[Hub(f) := []] && |b.channel| < limit
    ensures Fanned(c, limit, f, b', n + 1) && b'.running == map[Hub(f) := []] && |b'.channel| == |b.channel| + 1
  {
    RimIsNew(c, limit, f, b, n);
    FindNext(c, limit, f, b, n);
    AloneAgain(limit, Hub(f), Rim(f, n));
    var b1, e := Found(f, limit, b, n), Edge(f.hits[n], true);
    SendHit(c, limit, b1, Rim(f, n), e);
    b' := Sent(b1, Rim(f, n), e);
    FoundUntouched(f, c, b.core, b'.core, n);
  }

  /** When the channel is full, the worker of the spoke is left waiting. */
  lemma StallRound(c: Config, limit: nat, f: Fan, b: Bounded, n: nat) returns (b': Bounded)
    requires Fanned(c, limit, f, b, n) && n < |f.spokes| && |b.running| < limit && OthersStalled(c, f, b)
    ensures Fanned(c, limit, f, b', n + 1) && |b'.running| == |b.running| + 1 && OthersStalled(c, f, b')
    ensures b'.channel == b.channel
  {
    RimIsNew(c, limit, f, b, n);
    FindNext(c, limit, f, b, n);
    b' := Found(f, limit, b, n);
    FoundUntouched(f, c, b.core, b'.core, n);
  }

  /** With no place left the hub's worker turns to the spoke itself, and then all of them wait. */
  lemma FoundIsJammed(c: Config, limit: nat, f: Fan, b: Bounded, n: nat)
    requires Fanned(c, limit, f, b, n) && n < |f.spokes| && OthersStalled(c, f, b) && Rim(f, n) !in b.running
    requires |b.running| == |b.channel| == limit
    ensures Jammed(c, limit, Found(f, limit, b, n))
  {
    var b' := Found(f, limit, b, n);
    assert (b.running - {Hub(f)}).Keys == b.running.Keys - {Hub(f)};
    assert Stalled(c, b', Rim(f, n));
  }

  lemma JamRound(c: Config, limit: nat, f: Fan, b: Bounded, n: nat)
    requires Fanned(c, limit, f, b, n) && n < |f.spokes| && OthersStalled(c, f, b)
    requires |b.running| == |b.channel| == limit
    ensures CanBlock(c, limit)
  {
    RimIsNew(c, limit, f, b, n);
    FindNext(c, limit, f, b, n);
    FoundIsJammed(c, limit, f, b, n);
    JammedBlocks(c, limit, Found(f, limit, b, n));
  }

  lemma JammedBlocks(c: Config, limit: nat, b: Bounded)
    requires Reachable(c, limit, b) && Jammed(c, limit, b) && c.data.seeds !! c.base
    ensures CanBlock(c, limit)
  {
    ReachableIsOk(c, limit, b);
    BlockedIffJammed(c, limit, b);
  }

  lemma {:induction false} SendAll(c: Config, limit: nat, f: Fan, b: Bounded, n: nat) returns (b': Bounded)
    requires Fanned(c, limit, f, b, n) && b.running == map[Hub(f) := []] && |b.channel| == n <= limit <= |f.spokes|
    ensures Fanned(c, limit, f, b', limit) && b'.running == map[Hub(f) := []] && |b'.channel| == limit
    decreases limit - n
  {
    b' := b;
    if n < limit {
      b' := SendRound(c, limit, f, b, n);
      b' := SendAll(c, limit, f, b', n + 1);
    }
  }

  lemma {:induction false} StallAll(c: Config, limit: nat, f: Fan, b: Bounded, n: nat)
    requires Fanned(c, limit, f, b, n) && OthersStalled(c, f, b) && |b.channel| == limit
    requires 1 <= |b.running| <= limit && n == limit + |b.running| - 1 && 2 * limit <= |f.spokes|
    ensures CanBlock(c, limit)
    decreases limit - |b.running|
  {
    if |b.running| < limit {
      var b' := StallRound(c, limit, f, b, n);
      StallAll(c, limit, f, b', n + 1);
    } else {
      JamRound(c, limit, f, b, n);
    }
  }

  /** The hub is started first, then the other seed is stored. */
  lemma SetUp(c: Config, limit: nat, f: Fan) returns (b: Bounded)
    requires Fans(c, f) && limit > 0
    ensures Fanned(c, limit, f, b, 0) && b.running == map[Hub(f) := []] && b.channel == []
  {
    assert Acts(c, limit, Begin(), [], Begin());
    ReachNext(c, limit, Begin(), Store(f.hub));
    var b1 := Act(c, limit, Begin(), Store(f.hub));
    ReachNext(c, limit, b1, Go);
    var b2 := Act(c, limit, b1, Go);
    StartReading(c, limit, b2, Hub(f));
    var b3 := Reading(c, b2, Hub(f));
    ReachNext(c, limit, b3, Store(f.other));
    b := Act(c, limit, b3, Store(f.other));
  }

  lemma FanBlocks(c: Config, limit: nat, f: Fan)
    requires Fans(c, f) && limit > 0 && 2 * limit <= |f.spokes|
    ensures CanBlock(c, limit)
  {
    var b := SetUp(c, limit, f);
    b := SendAll(c, limit, f, b, 0);
    StallAll(c, limit, f, b, limit);
  }

  // ---------------------------------------------------------------- all limits, seeds and user ids

  lemma {:induction false} PickDistinct(S: set<Node>, n: nat) returns (s: seq<Node>)
    requires n <= |S|
    ensures |s| == n && Distinct(s) && forall x :: x in s ==> x in S
    decreases n
  {
    s := [];
    if n > 0 {
      var x :| x in S;
      s := PickDistinct(S - {x}, n - 1);
      s := [x] + s;
    }
  }

  lemma {:induction false} Above(S: set<Node>) returns (m: Node)
    ensures forall x :: x in S ==> x < m
    decreases |S|
  {
    m := 0;
    if S != {} {
      var x :| x in S;
      var k := Above(S - {x});
      m := if k > x then k else x + 1;
      forall y | y in S
        ensures y < m
      {
        assert y == x || y in S - {x};
      }
    }
  }

  lemma PickFresh(S: set<Node>, n: nat) returns (s: seq<Node>)
    ensures |s| == n && Distinct(s) && forall x :: x in s ==> x !in S
  {
    var m := Above(S);
    s := seq(n, i => m + i);
  }

  ghost function HitsOf(f: Fan, x: Node): set<Edge>
    requires |f.spokes| == |f.hits|
  {
    set i | 0 <= i < |f.spokes| && f.spokes[i] == x :: Edge(f.hits[i], true)
  }

  ghost function TuplesOf(f: Fan): map<Node, set<Edge>>
    requires |f.spokes| == |f.hits|
  {
    map x | x in [f.hub] + f.spokes :: if x == f.hub then SpokesFrom(f, 0) else HitsOf(f, x)
  }

  lemma HitsAreSingle(f: Fan, i: nat)
    requires i < |f.spokes| == |f.hits| && Distinct(f.spokes)
    ensures HitsOf(f, f.spokes[i]) == {Edge(f.hits[i], true)}
  {
  }

  /** Some store makes the search block. */
  ghost predicate SomeStoreBlocks(seeds: set<Node>, base: set<Node>, limit: nat) {
    exists tuples :: CanBlock(Config(Data(tuples, seeds), base, true), limit)
  }

  lemma ManyHitsBlock(seeds: set<Node>, base: set<Node>, limit: nat)
    requires seeds !! base && limit > 0 && |seeds| >= 2 && |base| >= 2 * limit
    ensures SomeStoreBlocks(seeds, base, limit)
  {
    var ends := PickDistinct(seeds, 2);
    var hits := PickDistinct(base, 2 * limit);
    var spokes := PickFresh(seeds + base, 2 * limit);
    var f := Fan(ends[0], ends[1], spokes, hits);
    var c := Config(Data(TuplesOf(f), seeds), base, true);
    assert ends[0] in seeds && ends[1] in seeds;
    forall i | 0 <= i < |spokes|
      ensures spokes[i] !in seeds && spokes[i] !in base && hits[i] in base
      ensures Edges(c.data, spokes[i]) == {Edge(hits[i], true)}
    {
      assert spokes[i] in spokes && hits[i] in hits;
      HitsAreSingle(f, i);
    }
    FanBlocks(c, limit, f);
  }

  lemma NoPlaceBlocks(seeds: set<Node>, base: set<Node>)
    requires seeds != {} && seeds !! base
    ensures SomeStoreBlocks(seeds, base, 0)
  {
    var c := Config(Data(map[], seeds), base, true);
    var x :| x in seeds;
    assert Acts(c, 0, Begin(), [], Begin());
    ReachNext(c, 0, Begin(), Store(x));
    JammedBlocks(c, 0, Act(c, 0, Begin(), Store(x)));
  }

  /** With reliable reads, some store makes the search block iff there is more than one seed and enough to find. */
  lemma BlocksIff(seeds: set<Node>, base: set<Node>, limit: nat)
    requires seeds !! base
    ensures SomeStoreBlocks(seeds, base, limit) <==>
              seeds != {} && (limit == 0 || (|seeds| >= 2 && |base| >= 2 * limit))
  {
    if seeds != {} && limit == 0 {
      NoPlaceBlocks(seeds, base);
    } else if seeds != {} && |seeds| >= 2 && |base| >= 2 * limit {
      ManyHitsBlock(seeds, base, limit);
    } else {
      forall tuples
        ensures !CanBlock(Config(Data(tuples, seeds), base, true), limit)
      {
        FewHitsNeverBlock(Config(Data(tuples, seeds), base, true), limit);
      }
    }
  }

  lemma FewHitsNeverBlock(c: Config, limit: nat)
    requires c.data.seeds !! c.base && c.reliable
    requires c.data.seeds == {} || (limit > 0 && (|c.data.seeds| < 2 || |c.base| < 2 * limit))
    ensures !CanBlock(c, limit)
  {
    Subset(Hittable(c), c.base);
    RoomyNeverBlocks(c, limit);
  }
}
