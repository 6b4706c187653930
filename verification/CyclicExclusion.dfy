/**
 A wrong answer that a loadable model and writable tuples produce. Group 1 and group 2 list each other as
 members, and a guest is an owner who is not a member. The owner of group 1 is no member of it, so the perfect
 model makes the owner a guest; but evaluating the membership key by key meets the cycle.
 */
module CyclicExclusion {
  import opened Reducers
  import opened Rules
  import opened Evaluator
  import opened Stratified
  import opened RecursiveMeaning
  import opened ExclusionCycles
  import R = Reachability

  const FIRST := Object("group", "1")
  const SECOND := Object("group", "2")
  const ANNE := User(Object("user", "anne"), "")

  function Rewrites(): map<(string, string), Rewrite> {
    map[("group", "owner") := This, ("group", "member") := This,
        ("group", "guest") := Difference(Computed("owner"), Computed("member"))]
  }

  function Tuples(): seq<Tuple> {
    [Tuple(FIRST, "owner", ANNE), Tuple(FIRST, "member", User(SECOND, "member")),
     Tuple(SECOND, "member", User(FIRST, "member"))]
  }

  /** Owners are users; members are users and the members of groups. */
  predicate Assignable(typ: string, relation: string, u: User) {
    && typ == "group"
    && (|| (u.relation == "" && u.obj.typ == "user" && u.obj.id != WILDCARD && relation in {"owner", "member"})
        || (u.relation == "member" && u.obj.typ == "group" && relation == "member"))
  }

  /** The user's type, or the userset, leads to the relation in the model's graph. */
  predicate Connected(u: User, relation: string, typ: string) {
    && typ == "group" && relation in {"owner", "member", "guest"}
    && (|| (u.relation == "" && u.obj.typ == "user")
        || (u.obj.typ == "group" && u.relation == relation)
        || (u.obj.typ == "group" && u.relation in {"owner", "member"} && relation == "guest"))
  }

  function CyclicWorld(): World {
    World(Tuples(), {"group", "user"}, Rewrites(), Assignable, (t, r, u) => false,
          (t, r) => if t == "group" && r == "member" then {("group", "member")} else {}, Connected, 25, true)
  }

  function Relations(): Levels {
    map[("group", "guest") := 1]
  }

  function Membership(): Ask {
    Ask(Usersets, "group", "member", ANNE, [FIRST, SECOND])
  }

  function KeyOf(o: Object, relation: string): Key {
    Key(o, relation, ANNE)
  }

  lemma GuestIsAbove()
    ensures Layered(CyclicWorld(), Relations(), "group", "guest", Rewrites()[("group", "guest")], 1)
  {
    assert Below(CyclicWorld(), Relations(), "group", "guest", Computed("member"), 1);
    assert Layered(CyclicWorld(), Relations(), "group", "guest", Computed("owner"), 1);
  }

  lemma CyclicIsLayered()
    ensures Layers(CyclicWorld(), Relations())
  {
    var w, lv := CyclicWorld(), Relations();
    forall tr | tr in w.rewrites
      ensures Layered(w, lv, tr.0, tr.1, w.rewrites[tr], LevelOf(lv, tr.0, tr.1))
    {
      if tr == ("group", "guest") {
        GuestIsAbove();
      } else {
        assert w.rewrites[tr] == This;
      }
    }
  }

  lemma GuestsAreNoMembers()
    ensures Excludes(CyclicWorld(), Membership(), "owner", "guest")
  {
    forall t | t in Tuples() && t.user.obj.typ == "group"
      ensures t.user.obj in Membership().objs
    {
      assert Membership().objs[0] == FIRST && Membership().objs[1] == SECOND;
    }
  }

  lemma NobodyHoldsMembership(i: nat)
    requires i < 2
    ensures !HoldsDirectly(CyclicWorld(), KeyAt(Membership(), i))
  {
    var w, k := CyclicWorld(), KeyAt(Membership(), i);
    assert k == KeyOf(FIRST, "member") || k == KeyOf(SECOND, "member");
    assert !DirectTuple(w, k) && !SomeWildcard(w, k);
  }

  lemma AnneIsNoMember()
    ensures !R.Reaches(GraphOf(CyclicWorld(), Membership()), 0, Base(CyclicWorld(), Membership()))
  {
    NobodyHoldsMembership(0);
    NobodyHoldsMembership(1);
    assert Base(CyclicWorld(), Membership()) == {};
  }

  lemma AnneIsOwner()
    ensures HoldsDirectly(CyclicWorld(), KeyOf(FIRST, "owner"))
  {
    assert Tuples()[0] == Tuple(FIRST, "owner", ANNE);
    assert DirectTuple(CyclicWorld(), KeyOf(FIRST, "owner"));
  }

  lemma GroupsLeadToEachOther()
    ensures CycleAhead(GraphOf(CyclicWorld(), Membership()), 0)
  {
    var w, a := CyclicWorld(), Membership();
    var g := GraphOf(w, a);
    assert Tuples()[1] == Tuple(FIRST, "member", User(SECOND, "member"));
    assert Tuples()[2] == Tuple(SECOND, "member", User(FIRST, "member"));
    assert Leads(w, a, FIRST, SECOND) && Leads(w, a, SECOND, FIRST);
    assert 1 in R.Succ(g, 0) && 0 in R.Succ(g, 1);
    StepAhead(g, 1, 0);
    StepAhead(g, 0, 1);
  }

  lemma CyclicIsClosed(tr: (string, string))
    requires tr in Rewrites()
    ensures Closed(CyclicWorld(), tr.0, Rewrites()[tr])
  {
    assert Closed(CyclicWorld(), "group", Computed("owner")) && Closed(CyclicWorld(), "group", Computed("member"));
  }

  lemma CyclicIsSturdy()
    ensures Sturdy(CyclicWorld()) && Defined(CyclicWorld(), "group", "guest")
  {
    forall tr | tr in CyclicWorld().rewrites
      ensures Closed(CyclicWorld(), tr.0, CyclicWorld().rewrites[tr])
    {
      CyclicIsClosed(tr);
    }
  }

  lemma GroupsOnly(o: Object)
    requires o in Objects(CyclicWorld(), FIRST) && o.typ == "group"
    ensures o == FIRST || o == SECOND
  {
    if o != FIRST {
      var t :| t in Tuples() && t.user.obj == o;
      assert t == Tuples()[0] || t == Tuples()[1] || t == Tuples()[2];
    }
  }

  lemma AtMostSix(S: set<Key>, a: Key, b: Key, c: Key, d: Key, e: Key, f: Key)
    requires S <= {a, b, c, d, e, f}
    ensures |S| <= 6
  {
    assert {a, b, c, d, e, f} == S + ({a, b, c, d, e, f} - S) && |{a, b, c, d, e, f}| <= 6;
  }

  lemma SixKeys()
    ensures |Universe(CyclicWorld(), FIRST, ANNE)| <= 6
  {
    var universe := Universe(CyclicWorld(), FIRST, ANNE);
    var a, b, c := KeyOf(FIRST, "owner"), KeyOf(FIRST, "member"), KeyOf(FIRST, "guest");
    var d, e, f := KeyOf(SECOND, "owner"), KeyOf(SECOND, "member"), KeyOf(SECOND, "guest");
    forall k | k in universe
      ensures k in {a, b, c, d, e, f}
    {
      GroupsOnly(k.obj);
    }
    AtMostSix(universe, a, b, c, d, e, f);
  }

  lemma AnneIsMisled()
    ensures Misled(CyclicWorld(), Membership(), "owner", "guest", 0)
  {
    AnneIsNoMember();
    AnneIsOwner();
    GroupsLeadToEachOther();
    assert On(Membership(), "owner", 0) == KeyOf(FIRST, "owner");
    assert Evaluated(CyclicWorld(), KeyOf(FIRST, "guest")) && On(Membership(), "guest", 0) == KeyOf(FIRST, "guest");
  }

  /** Anne is a guest, but the default strategy answers no. */
  method CyclicNoIsWrong(caching: bool) returns (r: Outcome)
    ensures r == Resp(false, true) && KeyOf(FIRST, "guest") in Perfect(CyclicWorld(), Relations())
  {
    CyclicIsLayered();
    GuestsAreNoMembers();
    AnneIsMisled();
    CyclicIsSturdy();
    SixKeys();
    r := DenyMisled(CyclicWorld(), caching, KeyOf(FIRST, "guest"), Relations(), Membership(), "owner", "guest", 0);
  }
}
