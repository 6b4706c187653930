/**
 Object ids. The stream operators compare ids with `<`, `==` and with the empty string, and do
 nothing else with them, so they are modelled over naturals with 0 for the empty string. The
 lemmas here show that this loses nothing: any finite set of strings has a numbering that keeps
 the byte-wise order, the equalities and the empty string.
 */
module Ids {

  type Id = nat

  const EMPTY: Id := 0

  /** Byte-wise lexicographic order. */
  predicate Less(a: string, b: string) {
    && b != []
    && (a == [] || a[0] < b[0] || (a[0] == b[0] && Less(a[1..], b[1..])))
  }

  lemma {:induction false} LessTransitive(a: string, b: string, c: string)
    requires Less(a, b) && Less(b, c)
    ensures Less(a, c)
  {
    if a != [] && a[0] == b[0] == c[0] {
      LessTransitive(a[1..], b[1..], c[1..]);
    }
  }

  lemma {:induction false} LessIrreflexive(a: string)
    ensures !Less(a, a)
  {
    if a != [] {
      LessIrreflexive(a[1..]);
    }
  }

  lemma {:induction false} LessTotal(a: string, b: string)
    ensures a == b || Less(a, b) || Less(b, a)
  {
    if a != [] && b != [] && a[0] == b[0] {
      LessTotal(a[1..], b[1..]);
      assert a == [a[0]] + a[1..] && b == [b[0]] + b[1..];
    }
  }

  /** How many strings of `X` precede `s`. */
  ghost function Rank(X: set<string>, s: string): Id {
    |set x | x in X && Less(x, s)|
  }

  /** On a set that holds the empty string, `Rank` keeps order, equality and the empty string. */
  lemma RankFaithful(X: set<string>, a: string, b: string)
    requires "" in X && a in X && b in X
    ensures Rank(X, a) < Rank(X, b) <==> Less(a, b)
    ensures Rank(X, a) == Rank(X, b) <==> a == b
    ensures Rank(X, a) == EMPTY <==> a == ""
  {
    LessTotal(a, b);
    RankIncreases(X, a, b);
    RankIncreases(X, b, a);
    if a == "" {
      assert (set x | x in X && Less(x, a)) == {};
    } else {
      RankIncreases(X, "", a);
    }
  }

  lemma RankIncreases(X: set<string>, a: string, b: string)
    requires a in X && b in X
    ensures Less(a, b) ==> Rank(X, a) < Rank(X, b)
    ensures Less(a, b) ==> a != b && !Less(b, a)
  {
    if Less(a, b) {
      var A, B := set x | x in X && Less(x, a), set x | x in X && Less(x, b);
      forall x | x in A
        ensures x in B
      {
        LessTransitive(x, a, b);
      }
      LessIrreflexive(a);
      assert a in B - A;
      SmallerInside(A, B);
      if Less(b, a) {
        LessTransitive(a, b, a);
      }
    }
  }

  lemma SmallerInside(A: set<string>, B: set<string>)
    requires A < B
    ensures |A| < |B|
  {
    assert B == A + (B - A);
  }
}
