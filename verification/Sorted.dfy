/** Sequences in order, and what taking them apart keeps. */
module Sorted {
  import opened Ids

  function Elems(s: seq<Id>): set<Id> {
    set v | v in s
  }

  ghost predicate NonDescending(s: seq<Id>) {
    forall i, j :: 0 <= i < j < |s| ==> s[i] <= s[j]
  }

  ghost predicate Ascending(s: seq<Id>) {
    forall i, j :: 0 <= i < j < |s| ==> s[i] < s[j]
  }

  lemma HeadIsLeast(s: seq<Id>)
    requires NonDescending(s) && s != []
    ensures forall x :: x in s ==> s[0] <= x
    ensures NonDescending(s[1..])
    ensures forall x :: x in s <==> x == s[0] || x in s[1..]
    ensures Ascending(s) ==> Ascending(s[1..]) && forall x :: x in s[1..] ==> s[0] < x
  {
  }

  lemma AppendKeepsOrder(s: seq<Id>, v: Id)
    ensures NonDescending(s) && (forall x :: x in s ==> x <= v) ==> NonDescending(s + [v])
    ensures Ascending(s) && (forall x :: x in s ==> x < v) ==> Ascending(s + [v])
  {
    assert forall i :: 0 <= i < |s| ==> s[i] in s;
  }

  /** Two ascending sequences with the same members are equal. */
  lemma {:induction false} AscendingUnique(a: seq<Id>, b: seq<Id>)
    requires Ascending(a) && Ascending(b)
    requires forall x :: x in a <==> x in b
    ensures a == b
  {
    assert b != [] ==> b[0] in b;
    if a != [] {
      assert a[0] in b && (b != [] ==> b[0] in a);
      HeadIsLeast(a);
      HeadIsLeast(b);
      forall x
        ensures x in a[1..] <==> x in b[1..]
      {
        assert x in a <==> x in b;
      }
      AscendingUnique(a[1..], b[1..]);
      assert a == [a[0]] + a[1..] && b == [b[0]] + b[1..];
    }
  }
}
