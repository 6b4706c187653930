/**
 The index of a request's contextual tuples. Tuples are grouped twice, by user, relation and object
 type and by object, relation and user type, and each group is kept sorted so that lookups can search
 by bisection. Names are numbered in string order.
 */
module ContextIndex {
  import opened Wrappers

  type Name = nat

  /** `payload` stands for the rest of the tuple, its condition among it. */
  datatype Tuple = Tuple(user: Name, relation: Name, obj: Name, payload: nat)

  /** The types of the objects and users that occur. */
  datatype Typing = Typing(ofObject: Name -> Name, ofUser: Name -> Name)

  /** A group holds the tuples of one user, sorted by object, or those of one object, sorted by user. */
  datatype SortKey = ByObject | ByUser

  datatype Group = Group(fixed: Name, relation: Name, typ: Name)

  function KeyOf(sortBy: SortKey, t: Tuple): Name {
    match sortBy
    case ByObject => t.obj
    case ByUser => t.user
  }

  function GroupOf(ty: Typing, sortBy: SortKey, t: Tuple): Group {
    match sortBy
    case ByObject => Group(t.user, t.relation, ty.ofObject(t.obj))
    case ByUser => Group(t.obj, t.relation, ty.ofUser(t.user))
  }

  /** The linear scan: the first tuple of the group with the sort key. */
  function First(ty: Typing, sortBy: SortKey, ts: seq<Tuple>, g: Group, k: Name): Option<Tuple> {
    if ts == [] then None
    else if GroupOf(ty, sortBy, ts[0]) == g && KeyOf(sortBy, ts[0]) == k then Some(ts[0])
    else First(ty, sortBy, ts[1..], g, k)
  }

  lemma {:induction false} FirstOfJoin(ty: Typing, sortBy: SortKey, a: seq<Tuple>, b: seq<Tuple>, g: Group, k: Name)
    ensures First(ty, sortBy, a + b, g, k)
         == if First(ty, sortBy, a, g, k).Some? then First(ty, sortBy, a, g, k) else First(ty, sortBy, b, g, k)
    decreases |a|
  {
    if a == [] {
      assert a + b == b;
    } else {
      assert (a + b)[0] == a[0] && (a + b)[1..] == a[1..] + b;
      FirstOfJoin(ty, sortBy, a[1..], b, g, k);
    }
  }

  lemma {:induction false} FirstOfNone(ty: Typing, sortBy: SortKey, s: seq<Tuple>, g: Group, k: Name)
    requires forall i :: 0 <= i < |s| ==> KeyOf(sortBy, s[i]) != k
    ensures First(ty, sortBy, s, g, k) == None
    decreases |s|
  {
    if s != [] {
      FirstOfNone(ty, sortBy, s[1..], g, k);
    }
  }

  ghost predicate Ascending(sortBy: SortKey, s: seq<Tuple>) {
    forall i, j :: 0 <= i < j < |s| ==> KeyOf(sortBy, s[i]) < KeyOf(sortBy, s[j])
  }

  ghost predicate AllIn(ty: Typing, sortBy: SortKey, s: seq<Tuple>, g: Group) {
    forall i :: 0 <= i < |s| ==> GroupOf(ty, sortBy, s[i]) == g
  }

  /** Bisection for the first position whose key is at least the target. */
  method Search(sortBy: SortKey, s: seq<Tuple>, k: Name) returns (i: nat)
    requires Ascending(sortBy, s)
    ensures i <= |s|
    ensures forall j :: 0 <= j < i ==> KeyOf(sortBy, s[j]) < k
    ensures forall j :: i <= j < |s| ==> KeyOf(sortBy, s[j]) >= k
  {
    i := 0;
    var high := |s|;
    while i < high
      invariant 0 <= i <= high <= |s|
      invariant forall j :: 0 <= j < i ==> KeyOf(sortBy, s[j]) < k
      invariant forall j :: high <= j < |s| ==> KeyOf(sortBy, s[j]) >= k
    {
      var h := (i + high) / 2;
      if KeyOf(sortBy, s[h]) >= k {
        high := h;
      } else {
        i := h + 1;
      }
    }
  }

  /** Where bisection stops decides what the linear scan of a sorted group finds. */
  lemma SearchIsScan(ty: Typing, sortBy: SortKey, s: seq<Tuple>, g: Group, k: Name, i: nat)
    requires Ascending(sortBy, s) && AllIn(ty, sortBy, s, g) && i <= |s|
    requires forall j :: 0 <= j < i ==> KeyOf(sortBy, s[j]) < k
    requires forall j :: i <= j < |s| ==> KeyOf(sortBy, s[j]) >= k
    ensures First(ty, sortBy, s, g, k) == if i < |s| && KeyOf(sortBy, s[i]) == k then Some(s[i]) else None
  {
    var a, b := s[..i], s[i..];
    assert s == a + b;
    FirstOfJoin(ty, sortBy, a, b, g, k);
    FirstOfNone(ty, sortBy, a, g, k);
    if b != [] && KeyOf(sortBy, b[0]) != k {
      forall j | 0 <= j < |b|
        ensures KeyOf(sortBy, b[j]) != k
      {
        assert b[j] == s[i + j];
      }
      FirstOfNone(ty, sortBy, b, g, k);
    }
  }

  /** Inserts a tuple at its place, unless the group already holds one with its key. */
  method InsertSorted(ghost ty: Typing, sortBy: SortKey, s: seq<Tuple>, t: Tuple, ghost g: Group)
    returns (r: seq<Tuple>)
    requires Ascending(sortBy, s) && AllIn(ty, sortBy, s, g) && GroupOf(ty, sortBy, t) == g
    ensures Ascending(sortBy, r) && AllIn(ty, sortBy, r, g) && r != []
    ensures forall k :: First(ty, sortBy, r, g, k) == First(ty, sortBy, s + [t], g, k)
  {
    var i := Search(sortBy, s, KeyOf(sortBy, t));
    if i < |s| && KeyOf(sortBy, s[i]) == KeyOf(sortBy, t) {
      forall k
        ensures First(ty, sortBy, s, g, k) == First(ty, sortBy, s + [t], g, k)
      {
        DuplicateIsHidden(ty, sortBy, s, t, g, i, k);
      }
      return s;
    }
    r := s[..i] + [t] + s[i..];
    forall k
      ensures First(ty, sortBy, r, g, k) == First(ty, sortBy, s + [t], g, k)
    {
      PlaceIsIrrelevant(ty, sortBy, s, t, g, i, k);
    }
  }

  lemma DuplicateIsHidden(ty: Typing, sortBy: SortKey, s: seq<Tuple>, t: Tuple, g: Group, i: nat, k: Name)
    requires i < |s| && AllIn(ty, sortBy, s, g) && KeyOf(sortBy, s[i]) == KeyOf(sortBy, t)
    ensures First(ty, sortBy, s, g, k) == First(ty, sortBy, s + [t], g, k)
  {
    FirstOfJoin(ty, sortBy, s, [t], g, k);
    if k == KeyOf(sortBy, t) {
      assert s == s[..i] + s[i..];
      FirstOfJoin(ty, sortBy, s[..i], s[i..], g, k);
      assert First(ty, sortBy, s[i..], g, k) == Some(s[i]);
    }
  }

  /** A tuple with a new key is found from any place in the group. */
  lemma PlaceIsIrrelevant(ty: Typing, sortBy: SortKey, s: seq<Tuple>, t: Tuple, g: Group, i: nat, k: Name)
    requires i <= |s| && forall j :: 0 <= j < |s| ==> KeyOf(sortBy, s[j]) != KeyOf(sortBy, t)
    ensures First(ty, sortBy, s[..i] + [t] + s[i..], g, k) == First(ty, sortBy, s + [t], g, k)
  {
    FirstOfJoin(ty, sortBy, s, [t], g, k);
    FirstOfJoin(ty, sortBy, s[..i] + [t], s[i..], g, k);
    FirstOfJoin(ty, sortBy, s[..i], [t], g, k);
    FirstOfJoin(ty, sortBy, s[..i], s[i..], g, k);
    assert s == s[..i] + s[i..];
    if k == KeyOf(sortBy, t) {
      FirstOfNone(ty, sortBy, s, g, k);
    } else {
      FirstOfNone(ty, sortBy, [t], g, k);
    }
  }

  type Index = map<Group, seq<Tuple>>

  /** A group of the index is sorted and a scan of it finds what a scan of all tuples finds. */
  ghost predicate GroupRight(ty: Typing, sortBy: SortKey, ts: seq<Tuple>, s: seq<Tuple>, g: Group) {
    && s != [] && Ascending(sortBy, s) && AllIn(ty, sortBy, s, g)
    && forall k :: First(ty, sortBy, s, g, k) == First(ty, sortBy, ts, g, k)
  }

  /** The index has a group exactly when some tuple belongs to it. */
  ghost predicate IndexRight(ty: Typing, sortBy: SortKey, ts: seq<Tuple>, index: Index) {
    && (forall g :: g in index ==> GroupRight(ty, sortBy, ts, index[g], g))
    && (forall g, k :: g !in index ==> First(ty, sortBy, ts, g, k) == None)
  }

  lemma {:induction false} FirstIsMember(ty: Typing, sortBy: SortKey, s: seq<Tuple>, g: Group, k: Name)
    ensures First(ty, sortBy, s, g, k).Some? ==> First(ty, sortBy, s, g, k).value in s
    decreases |s|
  {
    if s != [] {
      FirstIsMember(ty, sortBy, s[1..], g, k);
    }
  }

  /** A group holds the tuples of the request that are the first of their kind, and nothing else. */
  lemma GroupMembers(ty: Typing, sortBy: SortKey, ts: seq<Tuple>, s: seq<Tuple>, g: Group, t: Tuple)
    requires GroupRight(ty, sortBy, ts, s, g)
    ensures t in s <==> First(ty, sortBy, ts, g, KeyOf(sortBy, t)) == Some(t)
  {
    FirstIsMember(ty, sortBy, s, g, KeyOf(sortBy, t));
    if t in s {
      var i :| 0 <= i < |s| && s[i] == t;
      SearchIsScan(ty, sortBy, s, g, KeyOf(sortBy, t), i);
    }
  }

  /** Indexes one more tuple. */
  method AddTuple(ty: Typing, sortBy: SortKey, ghost ts: seq<Tuple>, index: Index, t: Tuple) returns (index': Index)
    requires IndexRight(ty, sortBy, ts, index)
    ensures IndexRight(ty, sortBy, ts + [t], index')
  {
    var g := GroupOf(ty, sortBy, t);
    var s := if g in index then index[g] else [];
    var r := InsertSorted(ty, sortBy, s, t, g);
    index' := index[g := r];
    forall h, k
      ensures h != g ==> First(ty, sortBy, ts + [t], h, k) == First(ty, sortBy, ts, h, k)
      ensures First(ty, sortBy, r, g, k) == First(ty, sortBy, ts + [t], g, k)
    {
      FirstOfJoin(ty, sortBy, ts, [t], h, k);
      FirstOfJoin(ty, sortBy, ts, [t], g, k);
      FirstOfJoin(ty, sortBy, s, [t], g, k);
    }
  }

  /** The linear scan over all tuples for one user, relation and object. */
  function FirstTuple(ts: seq<Tuple>, user: Name, relation: Name, obj: Name): Option<Tuple> {
    if ts == [] then None
    else if ts[0].user == user && ts[0].relation == relation && ts[0].obj == obj then Some(ts[0])
    else FirstTuple(ts[1..], user, relation, obj)
  }

  /** Both groupings find the same tuples. */
  lemma {:induction false} GroupedScanIsScan(ty: Typing, ts: seq<Tuple>, user: Name, relation: Name, obj: Name)
    ensures First(ty, ByObject, ts, Group(user, relation, ty.ofObject(obj)), obj) == FirstTuple(ts, user, relation, obj)
    ensures First(ty, ByUser, ts, Group(obj, relation, ty.ofUser(user)), user) == FirstTuple(ts, user, relation, obj)
    decreases |ts|
  {
    if ts != [] {
      GroupedScanIsScan(ty, ts[1..], user, relation, obj);
    }
  }

  class Request {
    const ty: Typing
    const tuples: seq<Tuple>
    var byUser: Index
    var byObject: Index

    ghost predicate Valid()
      reads this
    {
      IndexRight(ty, ByObject, tuples, byUser) && IndexRight(ty, ByUser, tuples, byObject)
    }

    constructor (ty: Typing, tuples: seq<Tuple>)
      ensures this.ty == ty && this.tuples == tuples && Valid()
    {
      this.ty, this.tuples := ty, tuples;
      this.byUser, this.byObject := map[], map[];
      new;
      BuildContextualTupleMaps();
    }

    method BuildContextualTupleMaps()
      requires byUser == map[] && byObject == map[]
      modifies this
      ensures Valid()
    {
      for n := 0 to |tuples|
        invariant IndexRight(ty, ByObject, tuples[..n], byUser) && IndexRight(ty, ByUser, tuples[..n], byObject)
      {
        assert tuples[..n + 1] == tuples[..n] + [tuples[n]];
        byUser := AddTuple(ty, ByObject, tuples[..n], byUser, tuples[n]);
        byObject := AddTuple(ty, ByUser, tuples[..n], byObject, tuples[n]);
      }
      assert tuples[..|tuples|] == tuples;
    }

    /** The tuples of one object, relation and user type, for readers that go through them in order. */
    method TuplesOfObject(obj: Name, relation: Name, userType: Name) returns (s: seq<Tuple>)
      requires Valid()
      ensures forall i, j :: 0 <= i < j < |s| ==> s[i].user < s[j].user
      ensures forall t :: t in s <==>
                            && t.obj == obj && t.relation == relation && ty.ofUser(t.user) == userType
                            && FirstTuple(tuples, t.user, relation, obj) == Some(t)
    {
      var g := Group(obj, relation, userType);
      s := if g in byObject then byObject[g] else [];
      forall t
        ensures t in s <==> GroupOf(ty, ByUser, t) == g && FirstTuple(tuples, t.user, relation, obj) == Some(t)
      {
        if GroupOf(ty, ByUser, t) == g {
          GroupedScanIsScan(ty, tuples, t.user, relation, obj);
          if g in byObject {
            GroupMembers(ty, ByUser, tuples, s, g, t);
          }
        }
      }
    }

    /** The lookup of a specific user's tuple finds what a scan of the request finds. */
    method FindSpecific(user: Name, relation: Name, obj: Name) returns (r: Option<Tuple>)
      requires Valid()
      ensures r == FirstTuple(tuples, user, relation, obj)
    {
      var g := Group(user, relation, ty.ofObject(obj));
      GroupedScanIsScan(ty, tuples, user, relation, obj);
      if g !in byUser {
        return None;
      }
      var s := byUser[g];
      var i := Search(ByObject, s, obj);
      SearchIsScan(ty, ByObject, s, g, obj, i);
      r := if i < |s| && s[i].obj == obj then Some(s[i]) else None;
    }
  }
}
