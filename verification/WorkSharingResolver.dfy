/** The v2 recursive resolver: loading both sides, then the search in any schedule. */
module WorkSharingResolver {
  import opened Sorted
  import opened Reachability
  import opened WorkSharing
  import opened WorkSharingExact
  import opened BoundedSearch

  const READ_FAILED := 2
  const CONTEXT_ENDED := 3

  function EnabledSteps(c: Config, s: State): (steps: set<Step>)
    ensures forall step :: step in steps <==> Enabled(c, s, step)
  {
    (set x | x in c.data.seeds && x !in s.seeded :: Seed(x))
    + (set l | l in s.tasks && s.tasks[l].Pending? :: Start(l))
    + (set l, e | l in s.tasks.Keys && s.tasks[l].Scan? && e in s.tasks[l].rest :: Take(l, e))
    + (set l | l in s.tasks && s.tasks[l].Hold? :: Handle(l, s.tasks[l].edge))
    + (set l | l in s.tasks && s.tasks[l] == Scan({}) :: Finish(l))
    + (set l | l in s.tasks && !c.reliable && (s.tasks[l].Pending? || s.tasks[l].Scan?) :: Fail(l))
  }

  function EnabledWork(c: Config, limit: nat, b: Bounded): (actions: set<Action>)
    ensures forall a :: a in actions <==> a.Work? && CanAct(c, limit, b, a)
  {
    set step | step in EnabledSteps(c, b.core) && CanAct(c, limit, b, Work(step)) :: Work(step)
  }

  function EnabledActions(c: Config, limit: nat, b: Bounded): (actions: set<Action>)
    ensures forall a :: a in actions <==> CanAct(c, limit, b, a)
  {
    (set x | x in c.data.seeds && CanAct(c, limit, b, Store(x)) :: Store(x))
    + (set a | a in {Go, Receive} && CanAct(c, limit, b, a)) + EnabledWork(c, limit, b)
    + (set l | l in b.running && CanAct(c, limit, b, ReadFails(l)) :: ReadFails(l))
  }

  /**
   Seeding, workers and receiver act in any order, under the limit. A search that blocks waits until its
   context ends, and then reports that.
   */
  method RecursiveMatch(c: Config, limit: nat) returns (r: Outcome)
    requires c.data.seeds !! c.base
    ensures r == Answer(true) ==> SomeReaches(Accepted(c.data), c.data.seeds, c.base)
    ensures r == Answer(false) && Safe(c.data) ==> !SomeReaches(Accepted(c.data), c.data.seeds, c.base)
    ensures c.reliable && Roomy(c, limit) ==> r.Answer?
    ensures r == Err(CONTEXT_ENDED) ==> CanBlock(c, limit)
  {
    if c.reliable && Roomy(c, limit) {
      RoomyNeverBlocks(c, limit);
    }
    var b := Begin();
    BeginIsOk(c, limit);
    assert Acts(c, limit, b, [], b);
    while !Over(c, b)
      invariant BoundedOk(c, limit, b) && Reachable(c, limit, b)
      decreases |OpenSteps(c, b.core)|, b.gate.Waiting?, b.running.Keys - b.failing, |b.channel|
    {
      var actions := EnabledActions(c, limit, b);
      if actions == {} {
        assert Blocked(c, limit, b);
        return Err(CONTEXT_ENDED);
      }
      var a :| a in actions;
      ActShrinks(c, limit, b, a);
      ActKeepsOk(c, limit, b, a);
      ReachNext(c, limit, b, a);
      b := Act(c, limit, b, a);
    }
    OverIsExact(c, limit, b);
    r := if b.answered then Answer(true) else if b.core.failed then Err(READ_FAILED) else Answer(false);
  }

  /** The user's side arrives in chunks; reading a chunk may fail part of the way. */
  datatype LeftMsg = Chunk(items: seq<Node>, broken: bool) | Broken

  function LeftItems(ms: seq<LeftMsg>): set<Node> {
    set m, x | m in ms && m.Chunk? && x in m.items :: x
  }

  predicate Sane(m: LeftMsg) {
    m.Chunk? && !m.broken
  }

  predicate AllSane(ms: seq<LeftMsg>) {
    forall m :: m in ms ==> Sane(m)
  }

  lemma TakeLeft(ms: seq<LeftMsg>)
    requires ms != []
    ensures LeftItems(ms) == (if ms[0].Chunk? then Elems(ms[0].items) else {}) + LeftItems(ms[1..])
  {
  }

  method TakeChunk(items: seq<Node>, mine: set<Node>, other: set<Node>) returns (hit: bool, mine': set<Node>)
    requires mine !! other
    ensures hit ==> exists x :: x in items && x in other
    ensures !hit ==> mine' == mine + Elems(items) && mine' !! other
  {
    mine' := mine;
    for i := 0 to |items|
      invariant mine' == mine + Elems(items[..i]) && mine' !! other
    {
      assert items[..i + 1] == items[..i] + [items[i]];
      if items[i] in other {
        return true, mine';
      }
      mine' := mine' + {items[i]};
    }
    assert items[..|items|] == items;
    hit := false;
  }

  datatype Loading = Loading(left: seq<LeftMsg>, right: seq<Msg>, fromUser: set<Node>, fromObject: set<Node>, err: bool)

  /** What the sides hold so far; while no error has come, nothing has been lost. */
  ghost predicate Loads(ld: Loading, U: set<Node>, O: set<Node>) {
    && ld.fromUser !! ld.fromObject
    && ld.fromUser + LeftItems(ld.left) <= U && ld.fromObject + Items(ld.right) <= O
    && (!ld.err ==> ld.fromUser + LeftItems(ld.left) == U && ld.fromObject + Items(ld.right) == O)
  }

  method TakeFromLeft(ld: Loading, ghost U: set<Node>, ghost O: set<Node>) returns (hit: bool, ld': Loading)
    requires ld.left != [] && Loads(ld, U, O)
    ensures hit ==> exists x :: x in U && x in O
    ensures !hit ==> Loads(ld', U, O) && ld'.left == ld.left[1..] && ld'.right == ld.right
    ensures !hit ==> (ld'.err <==> ld.err || !Sane(ld.left[0]))
    ensures ld.left[0].Broken? || ld.left[0].items == [] ==> !hit && ld'.fromUser == ld.fromUser
    ensures ld'.fromObject == ld.fromObject
  {
    TakeLeft(ld.left);
    ld' := ld.(left := ld.left[1..]);
    hit := false;
    if ld.left[0].Broken? {
      ld' := ld'.(err := true);
    } else {
      var mine;
      hit, mine := TakeChunk(ld.left[0].items, ld.fromUser, ld.fromObject);
      ld' := ld'.(fromUser := mine, err := ld.err || ld.left[0].broken);
    }
  }

  method TakeFromRight(ld: Loading, ghost U: set<Node>, ghost O: set<Node>) returns (hit: bool, ld': Loading)
    requires ld.right != [] && Loads(ld, U, O)
    ensures hit ==> exists x :: x in U && x in O
    ensures !hit ==> Loads(ld', U, O) && ld'.right == ld.right[1..] && ld'.left == ld.left
    ensures !hit ==> (ld'.err <==> ld.err || ld.right[0] == Bad)
    ensures ld'.fromUser == ld.fromUser && (ld.fromUser == {} ==> !hit)
  {
    TakeItem(ld.right);
    ld' := ld.(right := ld.right[1..]);
    hit := false;
    match ld.right[0]
    case Bad =>
      ld' := ld'.(err := true);
    case Item(x) =>
      hit := x in ld.fromUser;
      ld' := ld'.(fromObject := ld.fromObject + {x});
  }

  /** The user's side fails before it has delivered an id. */
  predicate FailsFirst(ms: seq<LeftMsg>) {
    ms != [] && (ms[0].Broken? || (ms[0].items == [] && FailsFirst(ms[1..])))
  }

  datatype Start = Ready(fromUser: set<Node>, fromObject: set<Node>, err: bool) | Matched | Empty | Failed

  /** Loads both sides, in any interleaving of their messages. */
  method LoadSides(left: seq<LeftMsg>, right: seq<Msg>) returns (r: Start)
    ensures r.Ready? ==> r.fromUser != {} && r.fromObject != {}
    ensures r.Ready? ==> r.fromUser <= LeftItems(left) && r.fromObject <= Items(right) && r.fromUser !! r.fromObject
    ensures r.Ready? && !r.err ==> r.fromUser == LeftItems(left) && r.fromObject == Items(right)
    ensures r.Ready? && !r.err ==> AllSane(left) && Bad !in right
    ensures r.Matched? ==> exists x :: x in LeftItems(left) && x in Items(right)
    // then there is nothing to compare with, and the search is not begun
    ensures FailsFirst(left) ==> r.Failed? || r.Empty?
    // a side without ids that had no error
    ensures r.Empty? ==> (LeftItems(left) == {} && AllSane(left)) || (Items(right) == {} && Bad !in right)
    ensures r.Failed? || (r.Ready? && r.err) ==> Bad in right || exists m :: m in left && !Sane(m)
  {
    ghost var U, O := LeftItems(left), Items(right);
    var ld := Loading(left, right, {}, {}, false);
    var leftOpen, rightOpen := true, true;
    while leftOpen || rightOpen
      invariant Loads(ld, U, O)
      invariant !leftOpen ==> ld.left == [] && ld.fromUser != {}
      invariant !rightOpen ==> ld.right == [] && ld.fromObject != {}
      invariant (forall m :: m in ld.left ==> m in left) && (Bad in ld.right ==> Bad in right)
      invariant FailsFirst(left) ==> FailsFirst(ld.left) && ld.fromUser == {}
      invariant ld.err ==> Bad in right || exists m :: m in left && !Sane(m)
      invariant !ld.err ==> forall m :: m in left ==> Sane(m) || m in ld.left
      invariant !ld.err && Bad in right ==> Bad in ld.right
      decreases |ld.left| + |ld.right|, leftOpen, rightOpen
    {
      var takeLeft: bool := *;
      var hit := false;
      if leftOpen && (takeLeft || !rightOpen) {
        if ld.left == [] {
          leftOpen := false;
          if ld.fromUser == {} {
            return if ld.err then Failed else Empty;
          }
        } else {
          var broken := ld.left[0].Broken?;
          assert ld.left[0] in left && (broken ==> !Sane(ld.left[0]));
          hit, ld := TakeFromLeft(ld, U, O);
          if broken && ld.fromUser == {} {
            return Failed;
          }
        }
      } else if ld.right == [] {
        rightOpen := false;
        if ld.fromObject == {} {
          return if ld.err then Failed else Empty;
        }
      } else {
        hit, ld := TakeFromRight(ld, U, O);
      }
      if hit {
        return Matched;
      }
    }
    r := Ready(ld.fromUser, ld.fromObject, ld.err);
  }

  /** At most one id on the object's side, or fewer than twice `limit` on the user's. */
  predicate HasRoom(left: seq<LeftMsg>, right: seq<Msg>, limit: nat) {
    limit > 0 && (|Items(right)| <= 1 || |LeftItems(left)| < 2 * limit)
  }

  /** The whole resolver. */
  method Execute(tuples: map<Node, set<Edge>>, left: seq<LeftMsg>, right: seq<Msg>, reliable: bool, limit: nat)
    returns (r: Outcome)
    ensures r == Answer(true) ==> SomeReaches(Accepted(Data(tuples, Items(right))), Items(right), LeftItems(left))
    ensures r == Answer(false) && Safe(Data(tuples, Items(right))) ==>
              !SomeReaches(Accepted(Data(tuples, Items(right))), Items(right), LeftItems(left))
    // a "no" conceals no error: both sides were read without one, or one was and has no ids
    ensures r == Answer(false) ==>
              || (AllSane(left) && Bad !in right)
              || (AllSane(left) && LeftItems(left) == {})
              || (Bad !in right && Items(right) == {})
    // with reliable reads there is an answer when the search has room
    ensures reliable && HasRoom(left, right, limit) && Bad !in right && AllSane(left) ==> r.Answer?
  {
    ghost var d := Data(tuples, Items(right));
    var start := LoadSides(left, right);
    match start
    case Failed =>
      r := Err(READ_FAILED);
    case Empty =>
      r := Answer(false);
    case Matched =>
      ghost var x :| x in LeftItems(left) && x in Items(right);
      SharedMatches(Accepted(d), Items(right), LeftItems(left), x);
      r := Answer(true);
    case Ready(fromUser, fromObject, err) =>
      var c := Config(Data(tuples, fromObject), fromUser, reliable);
      assert Accepted(c.data) == Accepted(d);
      Subset(Hittable(c), fromUser);
      r := RecursiveMatch(c, limit);
      if r == Answer(true) {
        MoreReach(Accepted(d), fromObject, fromUser, Items(right), LeftItems(left));
      } else if r == Answer(false) && err {
        r := Err(READ_FAILED);
      }
  }
}
