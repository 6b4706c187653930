/**
 The iterator that combines several ordered tuple iterators into one: it yields every mapped key
 once, in ascending order, with the tuple of the earliest input that has the key.
 */
module OrderedCombined {
  import opened Wrappers
  import opened Ids

  /** A tuple, seen as the key the mapper gives it and the tuple itself. */
  datatype Tuple = Tuple(key: Id, name: string)

  datatype Result = Value(t: Tuple) | Done

  /** An input iterator, or the nil that is left in the list once it is exhausted. */
  datatype Input = Nil | Iter(items: seq<Tuple>)

  ghost predicate Ordered(s: seq<Tuple>) {
    forall i, j :: 0 <= i < j < |s| ==> s[i].key <= s[j].key
  }

  // ---------------------------------------------------------------- which tuple stands for a key

  function FirstIn(s: seq<Tuple>, k: Id): Option<Tuple> {
    if s == [] then None else if s[0].key == k then Some(s[0]) else FirstIn(s[1..], k)
  }

  /** The first tuple with key `k` in the earliest input that has one. */
  function FirstFor(ss: seq<Input>, k: Id): Option<Tuple> {
    if ss == [] then None
    else
      var f := if ss[0].Nil? then None else FirstIn(ss[0].items, k);
      if f.Some? then f else FirstFor(ss[1..], k)
  }

  predicate After(k: Id, last: Option<Tuple>) {
    last.Some? ==> last.value.key < k
  }

  lemma {:induction false} FirstInFacts(s: seq<Tuple>, k: Id)
    ensures FirstIn(s, k).Some? <==> exists i :: 0 <= i < |s| && s[i].key == k
    ensures FirstIn(s, k).Some? ==> FirstIn(s, k).value in s && FirstIn(s, k).value.key == k
  {
    if s != [] {
      FirstInFacts(s[1..], k);
      if s[0].key != k {
        if exists i :: 0 <= i < |s| && s[i].key == k {
          var i :| 0 <= i < |s| && s[i].key == k;
          assert s[1..][i - 1].key == k;
        }
      }
    }
  }

  lemma {:induction false} FirstForUpdate(ss: seq<Input>, i: nat, x: Input, k: Id)
    requires i < |ss|
    requires (if x.Nil? then None else FirstIn(x.items, k)) == (if ss[i].Nil? then None else FirstIn(ss[i].items, k))
    ensures FirstFor(ss[i := x], k) == FirstFor(ss, k)
  {
    if i == 0 {
      assert ss[i := x][1..] == ss[1..];
    } else {
      assert ss[i := x][1..] == ss[1..][i - 1 := x];
      FirstForUpdate(ss[1..], i - 1, x, k);
    }
  }

  /** The first of several inputs that has the key decides. */
  lemma {:induction false} FirstForAt(ss: seq<Input>, i: nat, k: Id)
    requires i < |ss| && ss[i].Iter? && FirstIn(ss[i].items, k).Some?
    requires forall j :: 0 <= j < i && ss[j].Iter? ==> FirstIn(ss[j].items, k).None?
    ensures FirstFor(ss, k) == FirstIn(ss[i].items, k)
  {
    if i > 0 {
      FirstForAt(ss[1..], i - 1, k);
    }
  }

  lemma {:induction false} FirstForSome(ss: seq<Input>, k: Id) returns (i: nat)
    requires FirstFor(ss, k).Some?
    ensures i < |ss| && ss[i].Iter? && FirstIn(ss[i].items, k).Some?
  {
    if ss[0].Iter? && FirstIn(ss[0].items, k).Some? {
      return 0;
    }
    i := FirstForSome(ss[1..], k);
    i := i + 1;
  }

  function Compact(ss: seq<Input>): seq<Input> {
    if ss == [] then [] else (if ss[0].Nil? then [] else [ss[0]]) + Compact(ss[1..])
  }

  lemma {:induction false} CompactKeeps(ss: seq<Input>)
    ensures forall k :: FirstFor(Compact(ss), k) == FirstFor(ss, k)
    ensures forall x :: x in Compact(ss) ==> x in ss && x.Iter?
  {
    if ss != [] {
      CompactKeeps(ss[1..]);
      if ss[0].Iter? {
        assert Compact(ss)[0] == ss[0] && Compact(ss)[1..] == Compact(ss[1..]);
      } else {
        assert Compact(ss) == Compact(ss[1..]);
      }
    }
  }

  // ---------------------------------------------------------------- the iterator

  /** `t` is what comes after `last`: the least later key of the inputs, with the tuple that stands for it. */
  ghost predicate Follows(inputs: seq<Input>, last: Option<Tuple>, t: Tuple) {
    && After(t.key, last)
    && FirstFor(inputs, t.key) == Some(t)
    && forall k :: After(k, last) && FirstFor(inputs, k).Some? ==> t.key <= k
  }

  ghost predicate NothingFollows(inputs: seq<Input>, last: Option<Tuple>) {
    forall k :: After(k, last) ==> FirstFor(inputs, k).None?
  }

  /** What is left in `now` agrees with the original inputs on every key after `last`. */
  ghost predicate Agrees(inputs: seq<Input>, now: seq<Input>, last: Option<Tuple>) {
    && (forall k :: After(k, last) ==> FirstFor(now, k) == FirstFor(inputs, k))
    && (forall x :: x in now && x.Iter? ==> Ordered(x.items))
    && (last.Some? ==> forall x, t :: x in now && x.Iter? && t in x.items ==> last.value.key <= t.key)
  }

  /** Drops the tuples at the front that repeat the key last yielded. */
  function SkipRepeats(s: seq<Tuple>, last: Option<Tuple>): seq<Tuple> {
    if last.None? || s == [] || s[0].key != last.value.key then s else SkipRepeats(s[1..], last)
  }

  lemma {:induction false} SkipRepeatsKey(s: seq<Tuple>, last: Option<Tuple>, k: Id)
    requires After(k, last)
    ensures FirstIn(SkipRepeats(s, last), k) == FirstIn(s, k)
  {
    if last.Some? && s != [] && s[0].key == last.value.key {
      SkipRepeatsKey(s[1..], last, k);
    }
  }

  lemma {:induction false} SkipRepeatsOrder(s: seq<Tuple>, last: Option<Tuple>)
    requires Ordered(s) && (last.Some? ==> forall t :: t in s ==> last.value.key <= t.key)
    ensures Ordered(SkipRepeats(s, last))
    ensures forall t :: t in SkipRepeats(s, last) ==> t in s && After(t.key, last)
  {
    if last.Some? && s != [] {
      assert s == [s[0]] + s[1..];
      if s[0].key == last.value.key {
        SkipRepeatsOrder(s[1..], last);
      } else {
        assert s[0] in s;
        assert forall t :: t in s ==> s[0].key <= t.key;
      }
    }
  }

  lemma {:induction false} SkipRepeatsKeeps(s: seq<Tuple>, last: Option<Tuple>)
    ensures forall k :: After(k, last) ==> FirstIn(SkipRepeats(s, last), k) == FirstIn(s, k)
  {
    forall k | After(k, last)
      ensures FirstIn(SkipRepeats(s, last), k) == FirstIn(s, k)
    {
      SkipRepeatsKey(s, last, k);
    }
  }

  /** No input has a tuple left whose key has been yielded already. */
  ghost predicate Trimmed(now: seq<Input>, upto: nat, last: Option<Tuple>) {
    forall j :: 0 <= j < upto && j < |now| && now[j].Iter? ==>
                  now[j].items != [] && forall t :: t in now[j].items ==> After(t.key, last)
  }

  /** Input `idx` has the least head of the first `upto`, and is the first that has it. */
  ghost predicate Least(now: seq<Input>, upto: nat, idx: nat) {
    && idx < upto <= |now| && now[idx].Iter? && now[idx].items != []
    && forall j :: 0 <= j < upto && now[j].Iter? ==>
                     && now[j].items != [] && now[idx].items[0].key <= now[j].items[0].key
                     && (j < idx ==> now[idx].items[0].key < now[j].items[0].key)
  }

  class Combined {
    ghost const inputs: seq<Input>
    var pending: seq<Input>
    var lastHead: Option<Tuple>
    var lastYielded: Option<Tuple>

    constructor (inputs: seq<Input>)
      requires forall x :: x in inputs && x.Iter? ==> Ordered(x.items)
      ensures Valid() && this.inputs == inputs && lastYielded == None
    {
      CompactKeeps(inputs);
      this.inputs := inputs;
      pending := Compact(inputs);
      lastHead, lastYielded := None, None;
    }

    ghost predicate Valid()
      reads this
    {
      && Agrees(inputs, pending, lastYielded)
      && (lastHead.Some? ==> Follows(inputs, lastYielded, lastHead.value))
    }

    /** Drops repeated tuples from one input, and the input itself when that exhausts it. */
    method TrimAt(i: nat)
      requires Valid() && i < |pending| && pending[i].Iter?
      modifies this`pending
      ensures Valid()
      ensures |pending| == |old(pending)| && forall j :: 0 <= j < |pending| && j != i ==> pending[j] == old(pending)[j]
      ensures pending[i].Iter? ==>
                pending[i].items != [] && forall t :: t in pending[i].items ==> After(t.key, lastYielded)
    {
      var items := pending[i].items;
      assert pending[i] in pending;
      var rest := SkipRepeats(items, lastYielded);
      SkipRepeatsKeeps(items, lastYielded);
      SkipRepeatsOrder(items, lastYielded);
      ReplaceKeeps(inputs, pending, lastYielded, i, rest);
      pending := pending[i := if rest == [] then Nil else Iter(rest)];
    }

    /** The index in `pending` of the input whose head is next. */
    method FindHead() returns (r: Result, idx: nat)
      requires Valid()
      modifies this`pending
      ensures Valid() && Trimmed(pending, |pending|, lastYielded)
      ensures r.Value? ==> Follows(inputs, lastYielded, r.t) && idx < |pending| && pending[idx].Iter?
      ensures r.Value? ==> pending[idx].items != [] && pending[idx].items[0] == r.t
      ensures r.Done? ==> NothingFollows(inputs, lastYielded)
    {
      CompactKeeps(pending);
      pending := Compact(pending);
      assert forall j :: 0 <= j < |pending| ==> pending[j] in pending;
      var found := false;
      idx := 0;
      var n := |pending|;
      for i := 0 to n
        invariant |pending| == n && Valid() && Trimmed(pending, i, lastYielded)
        invariant forall j :: i <= j < n ==> pending[j].Iter?
        invariant if found then Least(pending, i, idx) else forall j :: 0 <= j < i ==> pending[j].Nil?
      {
        TrimAt(i);
        if pending[i].Iter? && (!found || pending[idx].items[0].key > pending[i].items[0].key) {
          found, idx := true, i;
        }
      }
      if !found {
        AllGone(inputs, pending, lastYielded);
        return Done, 0;
      }
      LeastHeadFollows(inputs, pending, lastYielded, idx);
      r := Value(pending[idx].items[0]);
    }

    method Next() returns (r: Result)
      requires Valid()
      modifies this
      ensures Valid()
      ensures r.Value? ==> Follows(inputs, old(lastYielded), r.t) && lastYielded == Some(r.t)
      ensures r.Done? ==> NothingFollows(inputs, lastYielded) && lastYielded == old(lastYielded)
      // a head that was shown before is the one that is yielded now
      ensures old(lastHead).Some? ==> r == Value(old(lastHead).value)
    {
      var idx;
      r, idx := FindHead();
      if !r.Value? {
        return;
      }
      lastHead := None;
      TakeKeeps(inputs, pending, lastYielded, idx);
      pending := pending[idx := Iter(pending[idx].items[1..])];
      lastYielded := Some(r.t);
    }

    method Head() returns (r: Result)
      requires Valid()
      modifies this
      ensures Valid() && lastYielded == old(lastYielded)
      ensures r.Value? ==> Follows(inputs, lastYielded, r.t) && lastHead == Some(r.t)
      ensures r.Done? ==> NothingFollows(inputs, lastYielded)
    {
      if lastHead.Some? {
        return Value(lastHead.value);
      }
      var idx;
      r, idx := FindHead();
      if r.Value? {
        lastHead := Some(r.t);
      }
    }
  }

  lemma ReplaceKeeps(inputs: seq<Input>, now: seq<Input>, last: Option<Tuple>, i: nat, rest: seq<Tuple>)
    requires Agrees(inputs, now, last) && i < |now| && now[i].Iter?
    requires Ordered(rest) && (forall t :: t in rest ==> t in now[i].items)
    requires forall k :: After(k, last) ==> FirstIn(rest, k) == FirstIn(now[i].items, k)
    ensures Agrees(inputs, now[i := Iter(rest)], last)
    ensures rest == [] ==> Agrees(inputs, now[i := Nil], last)
  {
    assert now[i] in now;
    forall k | After(k, last)
      ensures FirstFor(now[i := Iter(rest)], k) == FirstFor(inputs, k)
      ensures rest == [] ==> FirstFor(now[i := Nil], k) == FirstFor(inputs, k)
    {
      FirstForUpdate(now, i, Iter(rest), k);
      if rest == [] {
        FirstForUpdate(now, i, Nil, k);
      }
    }
  }

  lemma AllGone(inputs: seq<Input>, now: seq<Input>, last: Option<Tuple>)
    requires Agrees(inputs, now, last) && forall j :: 0 <= j < |now| ==> now[j].Nil?
    ensures NothingFollows(inputs, last)
  {
    forall k | After(k, last)
      ensures FirstFor(inputs, k).None?
    {
      if FirstFor(now, k).Some? {
        var i := FirstForSome(now, k);
      }
    }
  }

  lemma LeastHeadFollows(inputs: seq<Input>, now: seq<Input>, last: Option<Tuple>, idx: nat)
    requires Agrees(inputs, now, last) && Least(now, |now|, idx) && Trimmed(now, |now|, last)
    ensures Follows(inputs, last, now[idx].items[0])
  {
    var t := now[idx].items[0];
    assert t in now[idx].items;
    forall j, k | 0 <= j < |now| && now[j].Iter? && FirstIn(now[j].items, k).Some?
      ensures now[j].items[0].key <= k
    {
      FirstInFacts(now[j].items, k);
      assert now[j] in now;
    }
    FirstForAt(now, idx, t.key);
    forall k | After(k, last) && FirstFor(inputs, k).Some?
      ensures t.key <= k
    {
      var j := FirstForSome(now, k);
    }
  }

  lemma TakeKeeps(inputs: seq<Input>, now: seq<Input>, last: Option<Tuple>, idx: nat)
    requires Agrees(inputs, now, last) && idx < |now| && now[idx].Iter? && now[idx].items != []
    requires Follows(inputs, last, now[idx].items[0]) && Trimmed(now, |now|, last)
    ensures Agrees(inputs, now[idx := Iter(now[idx].items[1..])], Some(now[idx].items[0]))
  {
    var t, rest := now[idx].items[0], now[idx].items[1..];
    var next := now[idx := Iter(rest)];
    assert now[idx] in now;
    forall k | t.key < k
      ensures FirstFor(next, k) == FirstFor(inputs, k)
    {
      FirstForUpdate(now, idx, Iter(rest), k);
      assert After(k, last);
    }
    forall x, u | x in next && x.Iter? && u in x.items
      ensures t.key <= u.key
    {
      NotBelow(inputs, now, last, t, x, u, idx);
    }
  }

  lemma NotBelow(inputs: seq<Input>, now: seq<Input>, last: Option<Tuple>, t: Tuple, x: Input, u: Tuple, idx: nat)
    requires Agrees(inputs, now, last) && Follows(inputs, last, t) && idx < |now| && now[idx].Iter?
    requires Trimmed(now, |now|, last) && now[idx].items != [] && now[idx].items[0] == t
    requires x.Iter? && u in x.items && (x in now || x == Iter(now[idx].items[1..]))
    ensures t.key <= u.key
  {
    assert now[idx] in now;
    if x in now {
      var i :| 0 <= i < |now| && now[i] == x;
      KeyIsKnown(now, i, u);
      assert After(u.key, last);
      assert FirstFor(inputs, u.key).Some?;
    }
  }

  lemma {:induction false} KeyIsKnown(now: seq<Input>, i: nat, u: Tuple)
    requires i < |now| && now[i].Iter? && u in now[i].items
    ensures FirstFor(now, u.key).Some?
  {
    if i == 0 {
      var j :| 0 <= j < |now[0].items| && now[0].items[j] == u;
      assert now[0].items[j].key == u.key;
      FirstInFacts(now[0].items, u.key);
    } else {
      KeyIsKnown(now[1..], i - 1, u);
    }
  }

  /** `out` is what the inputs yield up to and including `last`. */
  ghost predicate Yielded(inputs: seq<Input>, out: seq<Tuple>, last: Option<Tuple>) {
    && (if out == [] then last == None else last == Some(out[|out| - 1]))
    && (forall i, j :: 0 <= i < j < |out| ==> out[i].key < out[j].key)
    && (forall t :: t in out ==> FirstFor(inputs, t.key) == Some(t))
    && (forall k :: FirstFor(inputs, k).Some? && !After(k, last) ==> FirstFor(inputs, k).value in out)
  }

  lemma YieldNext(inputs: seq<Input>, out: seq<Tuple>, last: Option<Tuple>, t: Tuple)
    requires Yielded(inputs, out, last) && Follows(inputs, last, t)
    ensures Yielded(inputs, out + [t], Some(t))
  {
  }

  /** Read to its end, the iterator yields exactly the keys of the inputs, in strictly ascending order. */
  method YieldAll(inputs: seq<Input>) returns (out: seq<Tuple>)
    requires forall x :: x in inputs && x.Iter? ==> Ordered(x.items)
    ensures forall i, j :: 0 <= i < j < |out| ==> out[i].key < out[j].key
    ensures forall t :: t in out <==> FirstFor(inputs, t.key) == Some(t)
    ensures forall k :: FirstFor(inputs, k).Some? ==> FirstFor(inputs, k).value in out
  {
    var it := new Combined(inputs);
    out := [];
    while true
      invariant fresh(it) && it.Valid() && it.inputs == inputs && Yielded(inputs, out, it.lastYielded)
      decreases |Left(inputs, it.lastYielded)|
    {
      ghost var last := it.lastYielded;
      var r := it.Next();
      if r.Done? {
        NothingMore(inputs, out, last);
        return;
      }
      LeftShrinks(inputs, last, r.t);
      YieldNext(inputs, out, last, r.t);
      out := out + [r.t];
    }
  }

  lemma NothingMore(inputs: seq<Input>, out: seq<Tuple>, last: Option<Tuple>)
    requires Yielded(inputs, out, last) && NothingFollows(inputs, last)
    ensures forall k :: FirstFor(inputs, k).Some? ==> FirstFor(inputs, k).value in out
    ensures forall t :: t in out <==> FirstFor(inputs, t.key) == Some(t)
  {
  }

  ghost function AllKeys(inputs: seq<Input>): set<Id> {
    set x, t | x in inputs && x.Iter? && t in x.items :: t.key
  }

  /** Keys still to come. */
  ghost function Left(inputs: seq<Input>, last: Option<Tuple>): set<Id> {
    set k | k in AllKeys(inputs) && After(k, last)
  }

  lemma LeftShrinks(inputs: seq<Input>, last: Option<Tuple>, t: Tuple)
    requires Follows(inputs, last, t)
    ensures |Left(inputs, Some(t))| < |Left(inputs, last)|
  {
    var i := FirstForSome(inputs, t.key);
    FirstInFacts(inputs[i].items, t.key);
    assert inputs[i] in inputs;
    var u := FirstIn(inputs[i].items, t.key).value;
    assert u in inputs[i].items && u.key in AllKeys(inputs);
    var a, b := Left(inputs, Some(t)), Left(inputs, last);
    assert a <= b && t.key in b && t.key !in a;
    assert b == a + (b - a);
    assert |b| == |a| + |b - a|;
  }
}
