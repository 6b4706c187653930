/**
 The v1 recursive resolver: it loads the objects that the user reaches directly and the first
 successors of the object, then searches level by level with a visited set.
 */
module RecursiveV1 {
  import opened Sorted
  import opened Reachability

  const DEPTH_EXCEEDED := 1
  const READ_FAILED := 2

  /** Reading an object's successors may fail after some of them have been delivered. */
  method ReadSuccessors(g: Graph, reliable: bool, x: Node) returns (items: seq<Node>, failed: bool)
    ensures Elems(items) <= Succ(g, x)
    ensures !failed ==> Elems(items) == Succ(g, x)
    ensures reliable ==> !failed
  {
    items, failed := [], false;
    var rest := Succ(g, x);
    while rest != {}
      invariant rest <= Succ(g, x) && Elems(items) == Succ(g, x) - rest
      decreases rest
    {
      if !reliable {
        failed := *;
        if failed {
          return;
        }
      }
      var y :| y in rest;
      assert Elems(items + [y]) == Elems(items) + {y} by {
        assert (items + [y])[|items|] == y;
      }
      rest, items := rest - {y}, items + [y];
    }
  }

  /**
   What the search has established while it has not found a match. `clean` says that no read has
   failed; only then are all successors of the visited objects accounted for.
   */
  ghost predicate Searched(g: Graph, all: set<Node>, start: set<Node>, base: set<Node>, visited: set<Node>,
                           level: set<Node>, clean: bool) {
    && visited !! base && level !! base
    && start <= visited + level <= all
    && (clean ==> forall x, y :: x in visited && y in Succ(g, x) ==> y in visited || y in level)
  }

  /** A chain of exactly `k` successors leads from the start to the object. */
  ghost predicate Away(g: Graph, start: set<Node>, x: Node, k: nat)
    decreases k
  {
    if k == 0 then x in start else exists y :: Away(g, start, y, k - 1) && x in Succ(g, y)
  }

  ghost predicate Within(g: Graph, start: set<Node>, x: Node, k: nat) {
    exists j: nat :: j <= k && Away(g, start, x, j)
  }

  /** Some object of the base is fewer than `limit` steps away. */
  ghost predicate Near(g: Graph, start: set<Node>, base: set<Node>, limit: int) {
    exists x, k: nat :: x in base && k < limit && Away(g, start, x, k)
  }

  /** Some chain from the start has `k` successors, if `k` is not negative. */
  ghost predicate Deep(g: Graph, start: set<Node>, k: int) {
    k >= 0 ==> exists x :: Away(g, start, x, k)
  }

  /** After `k` levels: the current level is `k` steps away, and without failed reads nothing that near is missing. */
  ghost predicate Level(g: Graph, start: set<Node>, visited: set<Node>, level: set<Node>, k: nat, clean: bool) {
    && (forall x :: x in level ==> Away(g, start, x, k))
    && (clean ==> forall x :: Within(g, start, x, k) ==> x in visited || x in level)
  }

  lemma NextLevel(g: Graph, all: set<Node>, start: set<Node>, base: set<Node>, visited: set<Node>, level: set<Node>,
                  next: set<Node>, k: nat, clean: bool, clean': bool)
    requires Level(g, start, visited, level, k, clean) && (clean' ==> clean) && Follow(g, level, next)
    requires Searched(g, all, start, base, visited + level, next, clean')
    ensures Level(g, start, visited + level, next, k + 1, clean')
  {
    if clean' {
      forall x | Within(g, start, x, k + 1)
        ensures x in visited + level || x in next
      {
        var j: nat :| j <= k + 1 && Away(g, start, x, j);
        if j == k + 1 {
          var y :| Away(g, start, y, k) && x in Succ(g, y);
          assert Within(g, start, y, k);
        } else {
          assert Within(g, start, x, k);
        }
      }
    }
  }

  /** The objects are successors of members of the level. */
  ghost predicate Follow(g: Graph, level: set<Node>, next: set<Node>) {
    forall y :: y in next ==> exists x :: x in level && y in Succ(g, x)
  }

  /** The set contains the successors of its members. */
  ghost predicate Closed(g: Graph, all: set<Node>) {
    forall x :: x in all ==> Succ(g, x) <= all
  }

  lemma KnownAreClosed(g: Graph, start: set<Node>)
    ensures Closed(g, start + Universe(g))
  {
  }

  /** One object of the level moves to the visited ones, and its successors join the level. */
  lemma VisitKeeps(g: Graph, all: set<Node>, start: set<Node>, base: set<Node>, visited: set<Node>, level: set<Node>,
                   clean: bool, x: Node, items: seq<Node>, failed: bool)
    requires Searched(g, all, start, base, visited, level, clean) && x in level && Succ(g, x) <= all
    requires Elems(items) <= Succ(g, x) && (!failed ==> Elems(items) == Succ(g, x)) && Elems(items) !! base
    ensures Searched(g, all, start, base, visited + {x}, (level - {x}) + Elems(items), clean && !failed)
  {
  }

  lemma RevisitKeeps(g: Graph, all: set<Node>, start: set<Node>, base: set<Node>, visited: set<Node>,
                     level: set<Node>, clean: bool, x: Node)
    requires Searched(g, all, start, base, visited, level, clean) && x in level && x in visited
    ensures Searched(g, all, start, base, visited, level - {x}, clean)
  {
  }

  /**
   Expands the unvisited members of one level, in any order. `next` collects the following level;
   a successor in the base ends the search.
   */
  method ExpandLevel(g: Graph, reliable: bool, base: set<Node>, visited: set<Node>, level: set<Node>,
                     ghost all: set<Node>, ghost start: set<Node>, ghost clean: bool)
    returns (found: bool, visited': set<Node>, next: set<Node>, failed: bool)
    requires Searched(g, all, start, base, visited, level, clean) && Closed(g, all)
    ensures found ==> exists x, y :: x in level && y in Succ(g, x) && y in base
    ensures Follow(g, level, next)
    ensures !found ==> Searched(g, all, start, base, visited', next, clean && !failed) && visited' == visited + level
    ensures level <= visited ==> next == {} && !found
    ensures reliable ==> !failed
  {
    visited', next, failed := visited, {}, false;
    var rest := level;
    ghost var open := level;
    assert Searched(g, all, start, base, visited', open, clean && !failed);
    while rest != {}
      invariant rest <= level && visited' == visited + (level - rest)
      invariant rest <= open <= rest + next + visited' && next <= open + visited'
      invariant Searched(g, all, start, base, visited', open, clean && !failed)
      invariant level <= visited ==> next == {} && open == rest
      invariant Follow(g, level, next)
      invariant reliable ==> !failed
      decreases rest
    {
      var userset :| userset in rest;
      rest := rest - {userset};
      if userset in visited' {
        RevisitKeeps(g, all, start, base, visited', open, clean && !failed, userset);
        open := open - {userset};
        continue;
      }
      var items, bad := ReadSuccessors(g, reliable, userset);
      var hit;
      hit, next := CollectSuccessors(g, base, userset, items, next);
      if hit {
        return true, visited', next, failed;
      }
      VisitKeeps(g, all, start, base, visited', open, clean && !failed, userset, items, bad);
      open := (open - {userset}) + Elems(items);
      visited' := visited' + {userset};
      failed := failed || bad;
    }
    found := false;
  }

  /** Adds the successors to the next level, up to one that is in the base. */
  method CollectSuccessors(g: Graph, base: set<Node>, userset: Node, items: seq<Node>, next0: set<Node>)
    returns (hit: bool, next: set<Node>)
    requires Elems(items) <= Succ(g, userset)
    ensures hit ==> exists y :: y in Succ(g, userset) && y in base
    ensures next0 <= next && (forall y :: y in next && y !in next0 ==> y in Succ(g, userset))
    ensures !hit ==> next == next0 + Elems(items) && Elems(items) !! base
  {
    next := next0;
    for i := 0 to |items|
      invariant next == next0 + Elems(items[..i]) && Elems(items[..i]) !! base && Elems(items[..i]) <= Elems(items)
    {
      assert items[..i + 1] == items[..i] + [items[i]];
      assert items[i] in Elems(items);
      if items[i] in base {
        return true, next;
      }
      next := next + {items[i]};
    }
    assert items[..|items|] == items;
    hit := false;
  }

  /** How many objects the search can still visit. */
  ghost function Unvisited(all: set<Node>, visited: set<Node>): nat {
    |all - visited|
  }

  /** The visited set grows with every level that has an unvisited member. */
  lemma VisitingShrinks(all: set<Node>, visited: set<Node>, level: set<Node>)
    requires level <= all
    ensures Unvisited(all, visited + level) <= Unvisited(all, visited)
    ensures !(level <= visited) ==> Unvisited(all, visited + level) < Unvisited(all, visited)
  {
    var a, b := all - (visited + level), all - visited;
    assert b == a + (b - a) && a !! (b - a);
    assert |b| == |a| + |b - a|;
    if !(level <= visited) {
      var x :| x in level && x !in visited;
      assert x in b - a;
    }
  }

  lemma LevelShrinks(g: Graph, all: set<Node>, start: set<Node>, base: set<Node>, visited: set<Node>,
                     level: set<Node>, next: set<Node>, clean: bool)
    requires Searched(g, all, start, base, visited, level, clean) && (level <= visited ==> next == {})
    ensures Unvisited(all, visited + level) + (if next == {} then 0 else 1) <= Unvisited(all, visited)
  {
    VisitingShrinks(all, visited, level);
  }

  lemma SearchBegins(g: Graph, all: set<Node>, start: set<Node>, base: set<Node>)
    requires start !! base && start <= all
    ensures Searched(g, all, start, base, {}, start, true) && Level(g, start, {}, start, 0, true)
    ensures Unvisited(all, {}) == |all|
  {
    assert all - {} == all;
  }

  /** One level of the search: a match one step further on, or the next level. */
  method SearchLevel(g: Graph, reliable: bool, base: set<Node>, visited: set<Node>, level: set<Node>,
                     ghost all: set<Node>, ghost start: set<Node>, ghost k: nat, ghost k': nat,
                     ghost clean: bool)
    returns (found: bool, visited': set<Node>, next: set<Node>, failed: bool)
    requires Searched(g, all, start, base, visited, level, clean) && Level(g, start, visited, level, k, clean)
    requires Closed(g, all) && k' == k + 1
    ensures found ==> SomeReaches(g, start, base) && Near(g, start, base, k' + 1)
    ensures !found ==>
              && Searched(g, all, start, base, visited', next, clean && !failed)
              && Level(g, start, visited', next, k', clean && !failed)
    ensures !found ==> Unvisited(all, visited') + (if next == {} then 0 else 1) <= Unvisited(all, visited)
    ensures reliable ==> !failed
  {
    found, visited', next, failed := ExpandLevel(g, reliable, base, visited, level, all, start, clean);
    if found {
      FoundIsNear(g, start, base, level, k);
    } else {
      NextLevel(g, all, start, base, visited, level, next, k, clean, clean && !failed);
      LevelShrinks(g, all, start, base, visited, level, next, clean);
    }
  }

  /**
   The search from one level on, `k` levels after the start. Failed reads are only reported when nothing is found.
   */
  method MatchLevels(g: Graph, reliable: bool, base: set<Node>, visited: set<Node>, level: set<Node>, depth0: nat,
                     maxDepth: nat, err: int, ghost all: set<Node>, ghost start: set<Node>, ghost k: nat,
                     ghost limit: int, ghost clean: bool)
    returns (r: Outcome)
    requires Searched(g, all, start, base, visited, level, clean) && Level(g, start, visited, level, k, clean)
    requires Closed(g, all) && Deep(g, start, k - 1)
    requires err == (if clean then 0 else READ_FAILED) && (reliable ==> clean) && limit == maxDepth - depth0 + k
    ensures r == Answer(true) ==> SomeReaches(g, start, base)
    ensures r == Answer(false) ==> !SomeReaches(g, start, base)
    ensures depth0 < maxDepth && r == Answer(true) ==> Near(g, start, base, limit)
    ensures depth0 < maxDepth && reliable && Near(g, start, base, limit) ==> r == Answer(true)
    ensures r == Err(DEPTH_EXCEEDED) ==> depth0 < maxDepth && Deep(g, start, limit - 2)
    ensures reliable && depth0 + Unvisited(all, visited) + (if level == {} then 1 else 2) < maxDepth ==> r.Answer?
    decreases Unvisited(all, visited), level != {}
  {
    var depth := depth0 + 1;
    if depth == maxDepth {
      NotNear(g, all, start, base, visited, level, k, clean, limit);
      return Err(DEPTH_EXCEEDED);
    }
    if level == {} {
      if err != 0 {
        return Err(err);
      }
      NothingFound(g, all, start, base, visited);
      NearIsReached(g, start, base, limit);
      return Answer(false);
    }
    DeepLevel(g, start, visited, level, k, clean);
    ghost var k' := k + 1;
    var found, visited', next, failed := SearchLevel(g, reliable, base, visited, level, all, start, k, k', clean);
    if found {
      NearGrows(g, start, base, k' + 1, limit);
      return Answer(true);
    }
    var err' := if failed then READ_FAILED else err;
    r := MatchLevels(g, reliable, base, visited', next, depth, maxDepth, err', all, start, k', limit,
                     clean && !failed);
  }

  method BreadthFirst(g: Graph, reliable: bool, base: set<Node>, start: set<Node>, depth0: nat, maxDepth: nat,
                      ghost all: set<Node>)
    returns (r: Outcome)
    requires start !! base && start <= all && Closed(g, all)
    ensures r == Answer(true) ==> SomeReaches(g, start, base)
    ensures r == Answer(false) ==> !SomeReaches(g, start, base)
    // within the depth limit the search finds exactly what is fewer steps away than the limit leaves
    ensures depth0 < maxDepth && r == Answer(true) ==> Near(g, start, base, maxDepth - depth0)
    ensures depth0 < maxDepth && reliable && Near(g, start, base, maxDepth - depth0) ==> r == Answer(true)
    ensures r == Err(DEPTH_EXCEEDED) ==> depth0 < maxDepth && Deep(g, start, maxDepth - depth0 - 2)
    // with a depth limit above the number of objects, an answer comes whenever the reads succeed
    ensures reliable && depth0 + |all| + 2 < maxDepth ==> r.Answer?
  {
    SearchBegins(g, all, start, base);
    r := MatchLevels(g, reliable, base, {}, start, depth0, maxDepth, 0, all, start, 0, maxDepth - depth0, true);
  }

  lemma FoundIsNear(g: Graph, start: set<Node>, base: set<Node>, level: set<Node>, k: nat)
    requires forall x :: x in level ==> Away(g, start, x, k)
    requires exists x, y :: x in level && y in Succ(g, x) && y in base
    ensures SomeReaches(g, start, base) && Near(g, start, base, k + 2)
  {
    var x, y :| x in level && y in Succ(g, x) && y in base;
    assert Away(g, start, y, k + 1);
    NearIsReached(g, start, base, k + 2);
  }

  lemma NearGrows(g: Graph, start: set<Node>, base: set<Node>, near: int, limit: int)
    requires Near(g, start, base, near)
    ensures near <= limit ==> Near(g, start, base, limit)
  {
  }

  lemma DeepLevel(g: Graph, start: set<Node>, visited: set<Node>, level: set<Node>, k: nat, clean: bool)
    requires Level(g, start, visited, level, k, clean) && level != {}
    ensures Deep(g, start, k)
  {
    var x :| x in level;
  }

  lemma NotNear(g: Graph, all: set<Node>, start: set<Node>, base: set<Node>, visited: set<Node>, level: set<Node>,
                k: nat, clean: bool, limit: int)
    requires Searched(g, all, start, base, visited, level, clean) && Level(g, start, visited, level, k, clean)
    requires limit == k + 1
    ensures clean ==> !Near(g, start, base, limit)
  {
    if x, j: nat :| x in base && j < limit && Away(g, start, x, j) {
      assert Within(g, start, x, k);
    }
  }

  lemma {:induction false} AwayIsReached(g: Graph, start: set<Node>, base: set<Node>, x: Node, k: nat)
    requires Away(g, start, x, k) && Reaches(g, x, base)
    ensures SomeReaches(g, start, base)
    decreases k
  {
    if k > 0 {
      var y :| Away(g, start, y, k - 1) && x in Succ(g, y);
      StepReaches(g, y, x, base);
      AwayIsReached(g, start, base, y, k - 1);
    }
  }

  lemma NearIsReached(g: Graph, start: set<Node>, base: set<Node>, limit: int)
    ensures Near(g, start, base, limit) ==> SomeReaches(g, start, base)
  {
    if Near(g, start, base, limit) {
      var x, k: nat :| x in base && k < limit && Away(g, start, x, k);
      BaseReaches(g, x, base);
      AwayIsReached(g, start, base, x, k);
    }
  }

  lemma NothingFound(g: Graph, all: set<Node>, start: set<Node>, base: set<Node>, visited: set<Node>)
    requires Searched(g, all, start, base, visited, {}, true)
    ensures !SomeReaches(g, start, base)
  {
    ClosedSetIsSafe(g, visited, base);
  }

  datatype Received = More | Match | Broken

  /** Takes one message from a side; its value may already be known on the other side. */
  method Receive(chan: seq<Msg>, mine: set<Node>, other: set<Node>, ghost all: set<Node>)
    returns (r: Received, chan': seq<Msg>, mine': set<Node>)
    requires chan != [] && mine + Items(chan) == all && mine !! other
    ensures chan' == chan[1..]
    ensures r.More? ==> mine' + Items(chan') == all && mine' !! other && chan[0] != Bad
    ensures r.Match? ==> exists x :: x in all && x in other
    ensures r.Broken? ==> Bad in chan
  {
    TakeItem(chan);
    var m := chan[0];
    chan', mine' := chan[1..], mine;
    if m.Bad? {
      return Broken, chan', mine';
    }
    mine' := mine + {m.node};
    if m.node in other {
      return Match, chan', mine';
    }
    r := More;
  }

  datatype Loaded = Sides | Shared | NoBase | Failed

  /** Loads both sides, in any interleaving of their messages. */
  method LoadSides(first: Node, objectMsgs: seq<Msg>, userMsgs: seq<Msg>)
    returns (r: Loaded, fromObject: set<Node>, fromUser: set<Node>)
    ensures r.Sides? ==> fromObject == {first} + Items(objectMsgs) && fromUser == Items(userMsgs)
    ensures r.Sides? ==> fromUser != {} && fromObject !! fromUser && Bad !in objectMsgs && Bad !in userMsgs
    ensures r.Shared? ==> exists x :: x in {first} + Items(objectMsgs) && x in Items(userMsgs)
    ensures r.NoBase? ==> Items(userMsgs) == {} && Bad !in userMsgs
    ensures r.Failed? ==> Bad in objectMsgs || Bad in userMsgs
  {
    ghost var O, U := {first} + Items(objectMsgs), Items(userMsgs);
    fromObject, fromUser := {first}, {};
    var objectChan, userChan := objectMsgs, userMsgs;
    var objectDone, userDone := false, false;
    while !userDone || !objectDone
      invariant fromObject + Items(objectChan) == O && fromUser + Items(userChan) == U && fromObject !! fromUser
      invariant (userDone ==> userChan == [] && fromUser != {}) && (objectDone ==> objectChan == [])
      invariant Bad in objectChan <==> Bad in objectMsgs
      invariant Bad in userChan <==> Bad in userMsgs
      decreases |objectChan| + |userChan|, !userDone, !objectDone
    {
      var takeUser: bool := *;
      var s;
      if !userDone && (takeUser || objectDone) {
        if userChan == [] {
          userDone := true;
          if fromUser == {} {
            return NoBase, fromObject, fromUser;
          }
          continue;
        }
        s, userChan, fromUser := Receive(userChan, fromUser, fromObject, U);
      } else {
        if objectChan == [] {
          objectDone := true;
          continue;
        }
        s, objectChan, fromObject := Receive(objectChan, fromObject, fromUser, O);
      }
      if !s.More? {
        return if s.Match? then Shared else Failed, fromObject, fromUser;
      }
    }
    r := Sides;
  }

  /**
   The whole resolver. Both sides are loaded concurrently; a value that shows up on both ends the
   search at once, and any read error ends it with an error.
   */
  method RecursiveFastPath(g: Graph, reliable: bool, objectMsgs: seq<Msg>, userMsgs: seq<Msg>,
                           depth0: nat, maxDepth: nat)
    returns (r: Outcome)
    ensures r == Answer(true) ==> SomeReaches(g, Items(objectMsgs), Items(userMsgs))
    ensures r == Answer(false) ==> !SomeReaches(g, Items(objectMsgs), Items(userMsgs))
    // a "no" conceals no error: both sides were read without one, or one was and has no ids
    ensures r == Answer(false) ==>
              || (Bad !in objectMsgs && Bad !in userMsgs)
              || (Bad !in userMsgs && Items(userMsgs) == {})
              || objectMsgs == []
    // below the depth limit it finds exactly the ids of the user that are fewer steps away than the limit leaves
    ensures depth0 < maxDepth && r == Answer(true) ==> Near(g, Items(objectMsgs), Items(userMsgs), maxDepth - depth0)
    ensures reliable && Bad !in objectMsgs && Bad !in userMsgs && depth0 < maxDepth ==>
              (Near(g, Items(objectMsgs), Items(userMsgs), maxDepth - depth0) ==> r == Answer(true))
    ensures r == Err(DEPTH_EXCEEDED) ==> depth0 < maxDepth && Deep(g, Items(objectMsgs), maxDepth - depth0 - 2)
    ensures reliable && Bad !in objectMsgs && Bad !in userMsgs ==>
              (depth0 + |Items(objectMsgs) + Universe(g)| + 2 < maxDepth ==> r.Answer?)
  {
    NearIsReached(g, Items(objectMsgs), Items(userMsgs), maxDepth - depth0);
    if objectMsgs == [] {
      return Answer(false);
    }
    TakeItem(objectMsgs);
    if objectMsgs[0].Bad? {
      return Err(READ_FAILED);
    }
    var loaded, fromObject, fromUser := LoadSides(objectMsgs[0].node, objectMsgs[1..], userMsgs);
    match loaded
    case Failed =>
      r := Err(READ_FAILED);
    case NoBase =>
      NoBaseNoMatch(g, Items(objectMsgs), Items(userMsgs));
      r := Answer(false);
    case Shared =>
      ghost var x :| x in Items(objectMsgs) && x in Items(userMsgs);
      SharedMatches(g, Items(objectMsgs), Items(userMsgs), x);
      assert Away(g, Items(objectMsgs), x, 0);
      r := Answer(true);
    case Sides =>
      KnownAreClosed(g, Items(objectMsgs));
      r := BreadthFirst(g, reliable, fromUser, fromObject, depth0, maxDepth, Items(objectMsgs) + Universe(g));
  }
}
