/**
 Recursive relations as reachability. A relation of the form "base, or the same relation on a
 successor" holds of an object when a chain of successors leads to an object in the base.
 */
module Reachability {

  type Node = nat

  /** The successors that reading an object's tuples yields; an object without tuples has none. */
  type Graph = map<Node, set<Node>>

  /** What a search returns: an answer without an error, or an error. */
  datatype Outcome = Answer(allowed: bool) | Err(code: int)

  function Succ(g: Graph, x: Node): set<Node> {
    if x in g then g[x] else {}
  }

  /** Every object that the tuples mention. */
  ghost function Universe(g: Graph): set<Node> {
    g.Keys + set x, y | x in g.Keys && y in g[x] :: y
  }

  ghost predicate Path(g: Graph, p: seq<Node>) {
    p != [] && (|p| > 1 ==> p[1] in Succ(g, p[0]) && Path(g, p[1..]))
  }

  ghost predicate PathInto(g: Graph, x: Node, base: set<Node>, p: seq<Node>) {
    Path(g, p) && p[0] == x && p[|p| - 1] in base
  }

  /** Some chain of successors from `x` ends in the base. */
  ghost predicate Reaches(g: Graph, x: Node, base: set<Node>) {
    exists p :: PathInto(g, x, base, p)
  }

  /** Some object of a set reaches the base. */
  ghost predicate SomeReaches(g: Graph, from: set<Node>, base: set<Node>) {
    exists x :: x in from && Reaches(g, x, base)
  }

  lemma BaseReaches(g: Graph, x: Node, base: set<Node>)
    requires x in base
    ensures Reaches(g, x, base)
  {
    assert PathInto(g, x, base, [x]);
  }

  lemma StepReaches(g: Graph, x: Node, y: Node, base: set<Node>)
    requires y in Succ(g, x) && Reaches(g, y, base)
    ensures Reaches(g, x, base)
  {
    var p :| PathInto(g, y, base, p);
    var q := [x] + p;
    assert q[1..] == p;
    assert PathInto(g, x, base, q);
  }

  lemma {:induction false} PathGrows(g: Graph, p: seq<Node>, y: Node)
    requires Path(g, p) && y in Succ(g, p[|p| - 1])
    ensures Path(g, p + [y])
    decreases |p|
  {
    if |p| > 1 {
      PathGrows(g, p[1..], y);
      assert (p + [y])[1..] == p[1..] + [y];
    } else {
      assert (p + [y])[1..] == [y];
    }
  }

  lemma {:induction false} PathEdge(g: Graph, p: seq<Node>, i: nat)
    requires Path(g, p) && i + 1 < |p|
    ensures p[i + 1] in Succ(g, p[i])
    decreases i
  {
    if i > 0 {
      PathEdge(g, p[1..], i - 1);
    }
  }

  /** A set that has no base member and that successors do not leave reaches nothing. */
  lemma {:induction false} ClosedReachesNothing(g: Graph, S: set<Node>, base: set<Node>, p: seq<Node>)
    requires Path(g, p) && p[0] in S && S !! base
    requires forall x, y :: x in S && y in Succ(g, x) ==> y in S
    ensures p[|p| - 1] !in base
    decreases |p|
  {
    if |p| > 1 {
      ClosedReachesNothing(g, S, base, p[1..]);
    }
  }

  lemma ClosedSetIsSafe(g: Graph, S: set<Node>, base: set<Node>)
    requires S !! base && forall x, y :: x in S && y in Succ(g, x) ==> y in S
    ensures forall x :: x in S ==> !Reaches(g, x, base)
  {
    forall x | x in S
      ensures !Reaches(g, x, base)
    {
      forall p | Path(g, p) && p[0] == x
        ensures !PathInto(g, x, base, p)
      {
        ClosedReachesNothing(g, S, base, p);
      }
    }
  }

  /** Reaching the base is the least solution of "in the base, or some successor is a solution". */
  lemma ReachesIsLeastSolution(g: Graph, base: set<Node>, x: Node)
    ensures Reaches(g, x, base) <==> x in base || exists y :: y in Succ(g, x) && Reaches(g, y, base)
    ensures forall P: iset<Node> :: (forall z :: z in base || (exists y :: y in Succ(g, z) && y in P) ==> z in P) ==>
                                      (Reaches(g, x, base) ==> x in P)
  {
    if Reaches(g, x, base) && x !in base {
      var p :| PathInto(g, x, base, p);
      assert |p| > 1;
      assert PathInto(g, p[1], base, p[1..]);
    }
    if x in base {
      BaseReaches(g, x, base);
    }
    if y :| y in Succ(g, x) && Reaches(g, y, base) {
      StepReaches(g, x, y, base);
    }
    forall P: iset<Node> | forall z :: z in base || (exists y :: y in Succ(g, z) && y in P) ==> z in P
      ensures Reaches(g, x, base) ==> x in P
    {
      if Reaches(g, x, base) {
        var p :| PathInto(g, x, base, p);
        PathIsInside(g, base, P, p);
      }
    }
  }

  lemma {:induction false} PathIsInside(g: Graph, base: set<Node>, P: iset<Node>, p: seq<Node>)
    requires Path(g, p) && p[|p| - 1] in base
    requires forall z :: z in base || (exists y :: y in Succ(g, z) && y in P) ==> z in P
    ensures p[0] in P
    decreases |p|
  {
    if |p| > 1 {
      PathIsInside(g, base, P, p[1..]);
    }
  }

  /** A message of a channel of ids: an id or a read error. */
  datatype Msg = Item(node: Node) | Bad

  function Items(ms: seq<Msg>): set<Node> {
    set m | m in ms && m.Item? :: m.node
  }

  lemma TakeItem(ms: seq<Msg>)
    requires ms != []
    ensures ms[0] in ms
    ensures Items(ms) == (if ms[0].Item? then {ms[0].node} else {}) + Items(ms[1..])
  {
  }

  lemma SharedMatches(g: Graph, O: set<Node>, U: set<Node>, x: Node)
    requires x in O && x in U
    ensures SomeReaches(g, O, U)
  {
    BaseReaches(g, x, U);
  }

  lemma MoreReach(g: Graph, O: set<Node>, U: set<Node>, O': set<Node>, U': set<Node>)
    requires SomeReaches(g, O, U) && O <= O' && U <= U'
    ensures SomeReaches(g, O', U')
  {
    var x :| x in O && Reaches(g, x, U);
    var p :| PathInto(g, x, U, p);
    assert PathInto(g, x, U', p);
  }

  lemma NoBaseNoMatch(g: Graph, O: set<Node>, U: set<Node>)
    requires U == {}
    ensures !SomeReaches(g, O, U)
  {
  }
}
