/**
 Set algebra on sorted id streams, as the bottom-up resolver computes it: k-way union and
 intersection, and difference, over iterators that end in "done" or in an error.

 `left[i]` is what iterator `i` has still to give, its current head (the source's
 `compareValues[i]`) first; taking the next value drops that head.
 */
module BottomUp {
  import opened Ids
  import opened Sorted
  import opened Channels

  /** All values of all the streams. */
  ghost function Members(ss: seq<seq<Id>>): set<Id> {
    set i, v | 0 <= i < |ss| && v in ss[i] :: v
  }

  /** The values that all the streams share; none when there is no stream. */
  ghost function Common(ss: seq<seq<Id>>): set<Id> {
    set v | v in Members(ss) && forall i :: 0 <= i < |ss| ==> v in ss[i]
  }

  ghost predicate AllNonDescending(ss: seq<seq<Id>>) {
    forall i :: 0 <= i < |ss| ==> NonDescending(ss[i])
  }

  ghost predicate AllAscending(ss: seq<seq<Id>>) {
    forall i :: 0 <= i < |ss| ==> Ascending(ss[i])
  }

  function Items(iters: seq<Source>): (r: seq<seq<Id>>)
    ensures |r| == |iters| && forall i :: 0 <= i < |iters| ==> r[i] == iters[i].items
  {
    seq(|iters|, i requires 0 <= i < |iters| => iters[i].items)
  }

  /** A value that some other stream still shows as its head can be dropped without loss. */
  lemma DropDuplicateHead(ss: seq<seq<Id>>, a: nat, h: nat)
    requires a < |ss| && h < |ss| && a != h && ss[a] != [] && ss[h] != [] && ss[a][0] == ss[h][0]
    ensures Members(ss[a := ss[a][1..]]) == Members(ss)
  {
    DropHead(ss, a);
    assert ss[a := ss[a][1..]][h][0] in ss[h];
  }

  lemma DropHead(ss: seq<seq<Id>>, a: nat)
    requires a < |ss| && ss[a] != []
    ensures Members(ss) == {ss[a][0]} + Members(ss[a := ss[a][1..]])
  {
    var ss' := ss[a := ss[a][1..]];
    assert ss[a] == [ss[a][0]] + ss[a][1..];
    forall v | v in Members(ss) && v != ss[a][0]
      ensures v in Members(ss')
    {
      var i :| 0 <= i < |ss| && v in ss[i];
      assert v in ss'[i];
    }
    forall v | v in Members(ss')
      ensures v in Members(ss)
    {
      var i :| 0 <= i < |ss'| && v in ss'[i];
      assert v in ss[i];
    }
    assert ss[a][0] in ss[a];
  }

  /** The exhausted iterators have reported their errors: `lastError` is one of them, if there is any. */
  ghost predicate ErrorsNoted(iters: seq<Source>, left: seq<seq<Id>>, lastError: nat)
    requires |left| == |iters|
  {
    && (lastError != DONE ==> exists i :: 0 <= i < |iters| && left[i] == [] && iters[i].err == lastError)
    && (forall i :: 0 <= i < |iters| && left[i] == [] && iters[i].err != DONE ==> lastError != DONE)
  }

  /** The error to remember once iterator `a` has been advanced past its head. */
  function NoteError(iters: seq<Source>, left: seq<seq<Id>>, a: nat, lastError: nat): nat
    requires a < |iters| == |left|
  {
    if |left[a]| == 1 && iters[a].err != DONE then iters[a].err else lastError
  }

  lemma ErrorNoted(iters: seq<Source>, left: seq<seq<Id>>, a: nat, lastError: nat)
    requires a < |iters| == |left| && left[a] != [] && ErrorsNoted(iters, left, lastError)
    ensures ErrorsNoted(iters, left[a := left[a][1..]], NoteError(iters, left, a, lastError))
  {
  }

  /** `ix` lists, in order, the iterators below `bound` that still have a head. */
  ghost predicate Lists(ix: seq<nat>, left: seq<seq<Id>>, bound: nat) {
    && bound <= |left|
    && Ascending(ix)
    && (forall q :: 0 <= q < |ix| ==> ix[q] < bound && left[ix[q]] != [])
    && (forall i :: 0 <= i < bound && left[i] != [] ==> i in ix)
  }

  /** Where a scan of `active` stands before its `p`-th entry. */
  function Bound(active: seq<nat>, p: nat): nat
    requires p <= |active|
  {
    if p == 0 then 0 else active[p - 1] + 1
  }

  lemma BoundsMeet(left: seq<seq<Id>>, active: seq<nat>, p: nat)
    requires Lists(active, left, |left|) && p <= |active|
    ensures p < |active| ==> Bound(active, p) <= active[p]
    ensures forall i :: Bound(active, p) <= i < |left| && left[i] != [] ==> p < |active| && active[p] <= i
  {
  }

  /** A scan of the iterators below `bound`: which are kept, and where the least head was first seen. */
  ghost predicate Scanned(left: seq<seq<Id>>, bound: nat, now: seq<seq<Id>>, kept: seq<nat>, m: nat) {
    && |now| == |left| && m < bound <= |left|
    && left[m] != [] && now[m] == left[m]
    && Lists(kept, now, bound)
    && (forall i :: bound <= i < |left| ==> now[i] == left[i])
    && (forall i :: 0 <= i < |left| ==> now[i] == left[i] || (left[i] != [] && now[i] == left[i][1..]))
    && (forall i :: 0 <= i < bound && left[i] != [] ==> left[m][0] <= left[i][0])
    && (forall i :: 0 <= i < bound && i != m && now[i] == left[i] != [] ==> left[m][0] < left[i][0])
  }

  lemma ScanFirst(left: seq<seq<Id>>, a: nat)
    requires a < |left| && left[a] != [] && forall i :: 0 <= i < a ==> left[i] == []
    ensures Scanned(left, a + 1, left, [a], a)
  {
  }

  lemma KeepGreater(left: seq<seq<Id>>, bound: nat, now: seq<seq<Id>>, kept: seq<nat>, m: nat, a: nat)
    requires Scanned(left, bound, now, kept, m) && bound <= a < |left|
    requires forall i :: bound <= i < a ==> left[i] == []
    requires left[a] != [] && left[m][0] < left[a][0]
    ensures Scanned(left, a + 1, now, kept + [a], m)
  {
  }

  lemma KeepLess(left: seq<seq<Id>>, bound: nat, now: seq<seq<Id>>, kept: seq<nat>, m: nat, a: nat)
    requires Scanned(left, bound, now, kept, m) && bound <= a < |left|
    requires forall i :: bound <= i < a ==> left[i] == []
    requires left[a] != [] && left[a][0] < left[m][0]
    ensures Scanned(left, a + 1, now, kept + [a], a)
  {
  }

  lemma SkipEqual(left: seq<seq<Id>>, bound: nat, now: seq<seq<Id>>, kept: seq<nat>, m: nat, a: nat)
    requires Scanned(left, bound, now, kept, m) && bound <= a < |left|
    requires forall i :: bound <= i < a ==> left[i] == []
    requires left[a] != [] && left[a][0] == left[m][0]
    ensures Scanned(left, a + 1, now[a := now[a][1..]], if |left[a]| == 1 then kept else kept + [a], m)
  {
    var now' := now[a := now[a][1..]];
    assert now[a] == left[a] && a != m;
    assert now'[a] == left[a][1..] != left[a];
    assert forall i :: 0 <= i < |left| && i != a ==> now'[i] == now[i];
    if |left[a]| == 1 {
      assert now'[a] == [];
    }
  }

  /** A scan in progress: the streams, the indexes kept, the least head so far and where it is. */
  datatype Scan = Scan(now: seq<seq<Id>>, kept: seq<nat>, minValue: Id, minIndex: nat, lastError: nat)

  ghost predicate ScanValid(iters: seq<Source>, left: seq<seq<Id>>, bound: nat, s: Scan) {
    && |left| == |iters|
    && Scanned(left, bound, s.now, s.kept, s.minIndex)
    && s.minValue == left[s.minIndex][0]
    && Members(s.now) == Members(left)
    && ErrorsNoted(iters, s.now, s.lastError)
  }

  /** A head equal to the least one so far is skipped at once; the value survives where it was first seen. */
  method ScanNext(iters: seq<Source>, ghost left: seq<seq<Id>>, ghost bound: nat, s: Scan, a: nat) returns (s': Scan)
    requires ScanValid(iters, left, bound, s) && bound <= a < |left| && left[a] != []
    requires forall i :: bound <= i < a ==> left[i] == []
    ensures ScanValid(iters, left, a + 1, s')
  {
    var value := s.now[a][0];
    if value < s.minValue {
      KeepLess(left, bound, s.now, s.kept, s.minIndex, a);
      s' := s.(minValue := value, minIndex := a, kept := s.kept + [a]);
    } else if value == s.minValue {
      SkipEqual(left, bound, s.now, s.kept, s.minIndex, a);
      DropDuplicateHead(s.now, a, s.minIndex);
      ErrorNoted(iters, s.now, a, s.lastError);
      s' := s.(now := s.now[a := s.now[a][1..]],
               lastError := NoteError(iters, s.now, a, s.lastError),
               kept := if |s.now[a]| == 1 then s.kept else s.kept + [a]);
    } else {
      KeepGreater(left, bound, s.now, s.kept, s.minIndex, a);
      s' := s.(kept := s.kept + [a]);
    }
  }

  /**
   One pass over the heads for the least one. Heads equal to the least one so far are skipped
   while the scan is still going on, even when a lesser one turns up later.
   */
  method ScanForLeast(iters: seq<Source>, left: seq<seq<Id>>, active: seq<nat>, lastError: nat) returns (s: Scan)
    requires |left| == |iters| && Lists(active, left, |left|) && active != []
    requires ErrorsNoted(iters, left, lastError)
    ensures ScanValid(iters, left, |left|, s)
  {
    BoundsMeet(left, active, 0);
    ScanFirst(left, active[0]);
    s := Scan(left, [active[0]], left[active[0]][0], active[0], lastError);
    for p := 1 to |active|
      invariant ScanValid(iters, left, Bound(active, p), s)
    {
      BoundsMeet(left, active, p);
      s := ScanNext(iters, left, Bound(active, p), s, active[p]);
    }
    BoundsMeet(left, active, |active|);
    ScanReachesEnd(left, Bound(active, |active|), s.now, s.kept, s.minIndex);
  }

  lemma ScanReachesEnd(left: seq<seq<Id>>, bound: nat, now: seq<seq<Id>>, kept: seq<nat>, m: nat)
    requires Scanned(left, bound, now, kept, m)
    requires forall i :: bound <= i < |left| ==> left[i] == []
    ensures Scanned(left, |left|, now, kept, m)
  {
  }

  /** What a complete scan guarantees to the merge step that follows it. */
  lemma ScanFinds(left: seq<seq<Id>>, now: seq<seq<Id>>, kept: seq<nat>, m: nat)
    requires Scanned(left, |left|, now, kept, m) && AllNonDescending(left)
    ensures AllNonDescending(now)
    ensures forall v :: v in Members(left) ==> left[m][0] <= v
    ensures AllAscending(left) ==> AllAscending(now)
    ensures AllAscending(left) ==> forall i, v :: 0 <= i < |now| && i != m && v in now[i] ==> left[m][0] < v
  {
    forall v | v in Members(left)
      ensures left[m][0] <= v
    {
      var i :| 0 <= i < |left| && v in left[i];
      HeadIsLeast(left[i]);
    }
    forall i | 0 <= i < |now|
      ensures NonDescending(now[i]) && (Ascending(left[i]) ==> Ascending(now[i]))
      ensures Ascending(left[i]) && i != m ==> forall v :: v in now[i] ==> left[m][0] < v
    {
      if left[i] != [] {
        HeadIsLeast(left[i]);
      }
    }
  }

  // ---------------------------------------------------------------- union

  function Total(ss: seq<seq<Id>>): nat {
    if ss == [] then 0 else |ss[0]| + Total(ss[1..])
  }

  lemma {:induction false} TotalShrinks(ss: seq<seq<Id>>, now: seq<seq<Id>>)
    requires |ss| == |now| && forall i :: 0 <= i < |ss| ==> |now[i]| <= |ss[i]|
    ensures Total(now) <= Total(ss)
    ensures (exists i :: 0 <= i < |ss| && |now[i]| < |ss[i]|) ==> Total(now) < Total(ss)
  {
    if ss != [] {
      TotalShrinks(ss[1..], now[1..]);
      if exists i :: 0 <= i < |ss| && |now[i]| < |ss[i]| {
        var i :| 0 <= i < |ss| && |now[i]| < |ss[i]|;
        if i > 0 {
          assert |now[1..][i - 1]| < |ss[1..][i - 1]|;
        }
      }
    }
  }

  /** The merge has put out `out`, and `left` holds what is still to be merged. */
  ghost predicate Merged(all: seq<seq<Id>>, out: seq<Id>, left: seq<seq<Id>>) {
    && Elems(out) + (Members(left) - {EMPTY}) == Members(all) - {EMPTY}
    && NonDescending(out) && AllNonDescending(left)
    && (forall x, v :: x in out && v in Members(left) ==> x <= v)
    && (AllAscending(all) ==> AllAscending(left) && Ascending(out))
    && (AllAscending(all) ==> forall x, v :: x in out && v in Members(left) ==> x < v)
  }

  /** Putting out `v0`, which is not above anything still to come, keeps the output in order. */
  lemma PutOutInOrder(out: seq<Id>, v0: Id, before: set<Id>, after: set<Id>)
    requires v0 in before && after <= before
    ensures var out' := out + if v0 == EMPTY then [] else [v0];
            && (NonDescending(out) && (forall x, v :: x in out && v in before ==> x <= v)
                && (forall v :: v in after ==> v0 <= v)
                ==> NonDescending(out') && forall x, v :: x in out' && v in after ==> x <= v)
            && (Ascending(out) && (forall x, v :: x in out && v in before ==> x < v)
                && (forall v :: v in after ==> v0 < v)
                ==> Ascending(out') && forall x, v :: x in out' && v in after ==> x < v)
            && Elems(out') == Elems(out) + ({v0} - {EMPTY})
  {
    AppendKeepsOrder(out, v0);
    assert forall x :: x in out + [v0] <==> x in out || x == v0;
  }

  lemma MoveOut(out: set<Id>, before: set<Id>, after: set<Id>, all: set<Id>, v0: Id)
    requires out + (before - {EMPTY}) == all - {EMPTY} && before == {v0} + after
    ensures (out + ({v0} - {EMPTY})) + (after - {EMPTY}) == all - {EMPTY}
  {
  }

  /** Putting out the least remaining value keeps the merge right. */
  lemma MergeLeast(all: seq<seq<Id>>, out: seq<Id>, left: seq<seq<Id>>, next: seq<seq<Id>>, v0: Id)
    requires Merged(all, out, left) && AllNonDescending(next)
    requires Members(left) == {v0} + Members(next) && forall v :: v in Members(left) ==> v0 <= v
    requires AllAscending(left) ==> AllAscending(next) && forall v :: v in Members(next) ==> v0 < v
    ensures Merged(all, out + (if v0 == EMPTY then [] else [v0]), next)
  {
    assert v0 in Members(left);
    MoveOut(Elems(out), Members(left), Members(next), Members(all), v0);
    PutOutInOrder(out, v0, Members(left), Members(next));
  }

  lemma MergeStep(all: seq<seq<Id>>, out: seq<Id>, left: seq<seq<Id>>, now: seq<seq<Id>>, kept: seq<nat>, m: nat)
    requires Merged(all, out, left) && Scanned(left, |left|, now, kept, m) && Members(now) == Members(left)
    ensures Merged(all, out + (if left[m][0] == EMPTY then [] else [left[m][0]]), now[m := now[m][1..]])
  {
    var v0, next := left[m][0], now[m := now[m][1..]];
    ScanFinds(left, now, kept, m);
    DropHead(now, m);
    HeadIsLeast(now[m]);
    if AllAscending(left) {
      forall v | v in Members(next)
        ensures v0 < v
      {
        var i :| 0 <= i < |next| && v in next[i];
      }
    }
    MergeLeast(all, out, left, next, v0);
  }

  lemma ScanConsumes(left: seq<seq<Id>>, now: seq<seq<Id>>, kept: seq<nat>, m: nat)
    requires Scanned(left, |left|, now, kept, m)
    ensures Total(now[m := now[m][1..]]) < Total(left)
  {
    var next := now[m := now[m][1..]];
    assert |next[m]| < |left[m]|;
    TotalShrinks(left, next);
  }

  /** Reads the first head of every iterator; the empty ones report their errors at once. */
  method FirstHeads(iters: seq<Source>) returns (active: seq<nat>, lastError: nat)
    ensures Lists(active, Items(iters), |iters|)
    ensures ErrorsNoted(iters, Items(iters), lastError)
  {
    active, lastError := [], DONE;
    ghost var left := Items(iters);
    ghost var errAt := 0;
    for idx := 0 to |iters|
      invariant Lists(active, left, idx)
      invariant lastError != DONE ==> errAt < |iters| && left[errAt] == [] && iters[errAt].err == lastError
      invariant forall i :: 0 <= i < idx && left[i] == [] && iters[i].err != DONE ==> lastError != DONE
    {
      if iters[idx].items == [] {
        if iters[idx].err != DONE {
          lastError, errAt := iters[idx].err, idx;
        }
      } else {
        active := active + [idx];
      }
    }
  }

  method ResolveUnion(iters: seq<Source>) returns (msgs: seq<Msg>)
    requires AllNonDescending(Items(iters))
    ensures Elems(Delivered(msgs)) == Members(Items(iters)) - {EMPTY}
    ensures NonDescending(Delivered(msgs))
    ensures AllAscending(Items(iters)) ==> Ascending(Delivered(msgs))
    // the channel ends in an error exactly when some iterator does, and then in the error of one of them
    ensures FailureOf(msgs) == DONE <==> forall it :: it in iters ==> it.err == DONE
    ensures FailureOf(msgs) != DONE ==> exists it :: it in iters && it.err == FailureOf(msgs)
  {
    var batch := new Batcher();
    var left := Items(iters);
    var active, lastError := FirstHeads(iters);
    while active != []
      invariant |left| == |iters| && fresh(batch) && batch.Valid()
      invariant Lists(active, left, |left|) && ErrorsNoted(iters, left, lastError)
      invariant Merged(Items(iters), batch.Added(), left)
      decreases Total(left)
    {
      var s := ScanForLeast(iters, left, active, lastError);
      MergeStep(Items(iters), batch.Added(), left, s.now, s.kept, s.minIndex);
      ScanConsumes(left, s.now, s.kept, s.minIndex);
      batch.Add(s.minValue);
      ErrorNoted(iters, s.now, s.minIndex, s.lastError);
      lastError := NoteError(iters, s.now, s.minIndex, s.lastError);
      active := AdvanceLeast(s.now, s.kept, s.minIndex);
      left := s.now[s.minIndex := s.now[s.minIndex][1..]];
    }
    AllDone(left, active);
    msgs := batch.Close(lastError);
    UnionErrors(iters, left, lastError);
  }

  /** The iterator with the least value is advanced, and leaves the active list when that exhausts it. */
  method AdvanceLeast(now: seq<seq<Id>>, kept: seq<nat>, minIndex: nat) returns (active: seq<nat>)
    requires Lists(kept, now, |now|) && minIndex < |now| && now[minIndex] != []
    ensures Lists(active, now[minIndex := now[minIndex][1..]], |now|)
  {
    ghost var next := now[minIndex := now[minIndex][1..]];
    if |now[minIndex]| > 1 {
      return kept;
    }
    active := [];
    for p := 0 to |kept|
      invariant Lists(active, next, Bound(kept, p))
    {
      BoundsMeet(now, kept, p);
      if kept[p] != minIndex {
        active := active + [kept[p]];
      }
    }
    BoundsMeet(now, kept, |kept|);
  }

  lemma AllDone(left: seq<seq<Id>>, active: seq<nat>)
    requires Lists(active, left, |left|) && active == []
    ensures Members(left) == {} && forall i :: 0 <= i < |left| ==> left[i] == []
  {
  }

  lemma UnionErrors(iters: seq<Source>, left: seq<seq<Id>>, lastError: nat)
    requires |left| == |iters| && ErrorsNoted(iters, left, lastError)
    requires forall i :: 0 <= i < |left| ==> left[i] == []
    ensures lastError == DONE <==> forall it :: it in iters ==> it.err == DONE
    ensures lastError != DONE ==> exists it :: it in iters && it.err == lastError
  {
  }

  // ---------------------------------------------------------------- intersection

  /** `now` is `rest` without some values at its front, all of them below `target`. */
  predicate DropsBelow(rest: seq<Id>, now: seq<Id>, target: Id) {
    && |now| <= |rest| && now == rest[|rest| - |now|..]
    && forall j :: 0 <= j < |rest| - |now| ==> rest[j] < target
  }

  /** The first value of `s` at or above `target`, and what follows it. */
  method SkipTo(s: seq<Id>, target: Id) returns (r: seq<Id>)
    requires s != [] && s[0] < target
    ensures DropsBelow(s, r, target) && |r| < |s| && (r != [] ==> target <= r[0])
  {
    r := s[1..];
    while r != [] && r[0] < target
      invariant |r| < |s| && r == s[|s| - |r|..]
      invariant forall i :: 0 <= i < |s| - |r| ==> s[i] < target
      decreases |r|
    {
      r := r[1..];
    }
  }

  ghost predicate NoneEmpty(left: seq<seq<Id>>) {
    forall i :: 0 <= i < |left| ==> left[i] != []
  }

  method GreatestHead(left: seq<seq<Id>>) returns (maxValue: Id, allSame: bool)
    requires left != [] && NoneEmpty(left)
    ensures exists j :: 0 <= j < |left| && left[j][0] == maxValue
    ensures forall i :: 0 <= i < |left| ==> left[i][0] <= maxValue
    ensures allSame <==> forall i :: 0 <= i < |left| ==> left[i][0] == maxValue
  {
    maxValue, allSame := left[0][0], true;
    for p := 1 to |left|
      invariant exists j :: 0 <= j < p && left[j][0] == maxValue
      invariant forall i :: 0 <= i < p ==> left[i][0] <= maxValue
      invariant allSame <==> forall i :: 0 <= i < p ==> left[i][0] == maxValue
    {
      var value := left[p][0];
      if maxValue != value {
        allSame := false;
        if maxValue < value {
          maxValue := value;
        }
      }
    }
  }

  /** `out` has been put out and `left` is still to be intersected. */
  ghost predicate Intersected(all: seq<seq<Id>>, out: seq<Id>, left: seq<seq<Id>>) {
    && |left| == |all|
    && Elems(out) + (Common(left) - {EMPTY}) == Common(all) - {EMPTY}
    && NonDescending(out) && AllNonDescending(left)
    && (forall x, v :: x in out && v in Members(left) ==> x <= v)
    && (AllAscending(all) ==> AllAscending(left) && Ascending(out))
    && (AllAscending(all) ==> forall x, v :: x in out && v in Members(left) ==> x < v)
  }

  function Tails(left: seq<seq<Id>>): (r: seq<seq<Id>>)
    ensures |r| == |left|
    ensures forall i :: 0 <= i < |left| ==> r[i] == if left[i] == [] then [] else left[i][1..]
  {
    seq(|left|, i requires 0 <= i < |left| => if left[i] == [] then [] else left[i][1..])
  }

  lemma TailsFacts(left: seq<seq<Id>>)
    requires NoneEmpty(left) && AllNonDescending(left)
    ensures AllNonDescending(Tails(left))
    ensures forall i, v :: 0 <= i < |left| && v in Tails(left)[i] ==> v in left[i] && left[i][0] <= v
    ensures AllAscending(left) ==> AllAscending(Tails(left))
    ensures AllAscending(left) ==> forall i, v :: 0 <= i < |left| && v in Tails(left)[i] ==> left[i][0] < v
  {
    forall i | 0 <= i < |left|
      ensures NonDescending(Tails(left)[i]) && (Ascending(left[i]) ==> Ascending(Tails(left)[i]))
      ensures forall v :: v in Tails(left)[i] ==> v in left[i] && left[i][0] <= v
      ensures Ascending(left[i]) ==> forall v :: v in Tails(left)[i] ==> left[i][0] < v
    {
      HeadIsLeast(left[i]);
    }
  }

  lemma TailsShrinkTotal(left: seq<seq<Id>>)
    requires left != [] && NoneEmpty(left)
    ensures Total(Tails(left)) < Total(left)
  {
    assert |Tails(left)[0]| < |left[0]|;
    TotalShrinks(left, Tails(left));
  }

  /** A head that all streams share is common, and the rest of the common values are in the tails. */
  lemma CommonHead(left: seq<seq<Id>>, v0: Id)
    requires left != [] && NoneEmpty(left) && AllNonDescending(left)
    requires forall i :: 0 <= i < |left| ==> left[i][0] == v0
    ensures Common(left) == {v0} + Common(Tails(left))
    ensures Members(Tails(left)) <= Members(left)
  {
    var ts := Tails(left);
    forall i | 0 <= i < |left|
      ensures Elems(left[i]) == {v0} + Elems(ts[i])
    {
      HeadIsLeast(left[i]);
    }
    assert v0 in Elems(left[0]);
    forall v
      ensures v in Common(left) <==> v == v0 || v in Common(ts)
    {
      InCommon(left, v);
      InCommon(ts, v);
      assert v in Elems(left[0]) <==> v == v0 || v in Elems(ts[0]);
    }
    forall v | v in Members(ts)
      ensures v in Members(left)
    {
      var i :| 0 <= i < |ts| && v in ts[i];
      assert v in Elems(ts[i]) && v in Elems(left[i]);
    }
  }

  lemma InCommon(ss: seq<seq<Id>>, v: Id)
    requires ss != []
    ensures v in Common(ss) <==> forall i :: 0 <= i < |ss| ==> v in Elems(ss[i])
  {
    if forall i :: 0 <= i < |ss| ==> v in Elems(ss[i]) {
      assert v in Elems(ss[0]) && v in ss[0];
    }
  }

  /** Putting out a shared head keeps the intersection right. */
  lemma IntersectLeast(all: seq<seq<Id>>, out: seq<Id>, left: seq<seq<Id>>, next: seq<seq<Id>>, v0: Id)
    requires Intersected(all, out, left) && |next| == |left| && AllNonDescending(next)
    requires Common(left) == {v0} + Common(next) && Members(next) <= Members(left) && v0 in Members(left)
    requires forall v :: v in Members(next) ==> v0 <= v
    requires AllAscending(left) ==> AllAscending(next) && forall v :: v in Members(next) ==> v0 < v
    ensures Intersected(all, out + (if v0 == EMPTY then [] else [v0]), next)
  {
    MoveOut(Elems(out), Common(left), Common(next), Common(all), v0);
    PutOutInOrder(out, v0, Members(left), Members(next));
  }

  lemma AdvanceShared(all: seq<seq<Id>>, out: seq<Id>, left: seq<seq<Id>>, v0: Id)
    requires Intersected(all, out, left) && left != [] && NoneEmpty(left)
    requires forall i :: 0 <= i < |left| ==> left[i][0] == v0
    ensures Intersected(all, out + (if v0 == EMPTY then [] else [v0]), Tails(left))
  {
    var ts := Tails(left);
    TailsFacts(left);
    CommonHead(left, v0);
    assert v0 in left[0] && v0 in Members(left);
    forall v | v in Members(ts)
      ensures v0 <= v && (AllAscending(left) ==> v0 < v)
    {
      var i :| 0 <= i < |ts| && v in ts[i];
    }
    IntersectLeast(all, out, left, ts, v0);
  }

  lemma DropsBelowConcat(b: seq<Id>, items: seq<Id>, tail: seq<Id>, target: Id)
    requires DropsBelow(b, items, target)
    ensures DropsBelow(b + tail, items + tail, target)
  {
  }

  /** Dropping values below a head of one of the streams keeps the intersection right. */
  lemma DropBelowKeeps(all: seq<seq<Id>>, out: seq<Id>, rests: seq<seq<Id>>, now: seq<seq<Id>>, h: nat)
    requires Intersected(all, out, rests) && |now| == |rests| && h < |rests| && rests[h] != []
    requires forall i :: 0 <= i < |rests| ==> DropsBelow(rests[i], now[i], rests[h][0])
    ensures Intersected(all, out, now)
  {
    DropBelowKeepsCommon(rests, now, h);
  }

  lemma DropBelowKeepsCommon(rests: seq<seq<Id>>, now: seq<seq<Id>>, h: nat)
    requires AllNonDescending(rests) && |now| == |rests| && h < |rests| && rests[h] != []
    requires forall i :: 0 <= i < |rests| ==> DropsBelow(rests[i], now[i], rests[h][0])
    ensures AllNonDescending(now) && (AllAscending(rests) ==> AllAscending(now))
    ensures Members(now) <= Members(rests) && Common(now) == Common(rests)
  {
    forall i | 0 <= i < |rests|
      ensures NonDescending(now[i]) && (Ascending(rests[i]) ==> Ascending(now[i]))
      ensures forall v :: v in now[i] ==> v in rests[i]
      ensures forall v :: v in rests[i] && rests[h][0] <= v ==> v in now[i]
    {
      SuffixFacts(rests[i], now[i], rests[h][0]);
    }
    forall v | v in Members(now)
      ensures v in Members(rests)
    {
      var i :| 0 <= i < |now| && v in now[i];
      assert v in rests[i];
    }
    forall v
      ensures v in Common(now) <==> v in Common(rests)
    {
      InCommon(now, v);
      InCommon(rests, v);
      HeadIsLeast(rests[h]);
      if v in Common(rests) {
        assert v in Elems(rests[h]) && rests[h][0] <= v;
      }
    }
  }

  lemma SuffixFacts(rest: seq<Id>, now: seq<Id>, target: Id)
    requires DropsBelow(rest, now, target) && NonDescending(rest)
    ensures NonDescending(now) && (Ascending(rest) ==> Ascending(now))
    ensures forall v :: v in now ==> v in rest
    ensures forall v :: v in rest && target <= v ==> v in now
  {
  }

  lemma EmptyStreamEndsIntersection(left: seq<seq<Id>>, k: nat)
    requires k < |left| && left[k] == []
    ensures Common(left) == {}
  {
  }

  ghost predicate AllDrop(left: seq<seq<Id>>, now: seq<seq<Id>>, target: Id) {
    |now| == |left| && forall i :: 0 <= i < |left| ==> DropsBelow(left[i], now[i], target)
  }

  lemma NoneDropped(left: seq<seq<Id>>, target: Id)
    ensures AllDrop(left, left, target)
  {
    forall i | 0 <= i < |left|
      ensures DropsBelow(left[i], left[i], target)
    {
      assert left[i][0..] == left[i];
    }
  }

  lemma DroppingShrinks(left: seq<seq<Id>>, now: seq<seq<Id>>, target: Id, a: nat)
    requires AllDrop(left, now, target) && a < |left| && |now[a]| < |left[a]|
    ensures Total(now) < Total(left)
  {
    forall i | 0 <= i < |left|
      ensures |now[i]| <= |left[i]|
    {
      assert DropsBelow(left[i], now[i], target);
    }
    TotalShrinks(left, now);
  }

  /** The first `n` streams have a head at or above the target. */
  ghost predicate AtLeast(ss: seq<seq<Id>>, n: nat, target: Id) {
    n <= |ss| && forall i :: 0 <= i < n ==> ss[i] != [] && ss[i][0] >= target
  }

  lemma SkippedOne(left: seq<seq<Id>>, now: seq<seq<Id>>, target: Id, a: nat, r: seq<Id>)
    requires AllDrop(left, now, target) && AtLeast(now, a, target) && a < |left| && DropsBelow(left[a], r, target)
    ensures AllDrop(left, now[a := r], target)
    ensures r != [] && r[0] >= target ==> AtLeast(now[a := r], a + 1, target)
  {
  }

  lemma MovedUp(left: seq<seq<Id>>, now: seq<seq<Id>>, target: Id, a: nat)
    requires AllDrop(left, now, target) && AtLeast(now, |left|, target)
    requires a < |left| && left[a] != [] && left[a][0] < target
    ensures Total(now) < Total(left)
  {
    assert DropsBelow(left[a], now[a], target);
    assert now[a] != left[a];
    DroppingShrinks(left, now, target, a);
  }

  /** Moves every head below `maxValue` up to it, unless a stream runs out on the way. */
  method SkipAll(left: seq<seq<Id>>, maxValue: Id) returns (now: seq<seq<Id>>, ended: nat)
    requires left != [] && NoneEmpty(left) && exists i :: 0 <= i < |left| && left[i][0] < maxValue
    ensures AllDrop(left, now, maxValue) && ended <= |left|
    ensures if ended < |left| then now[ended] == [] else AtLeast(now, |now|, maxValue)
    ensures Total(now) < Total(left)
  {
    ghost var low :| 0 <= low < |left| && left[low][0] < maxValue;
    now, ended := left, |left|;
    NoneDropped(left, maxValue);
    for idx := 0 to |left|
      invariant AllDrop(left, now, maxValue) && AtLeast(now, idx, maxValue)
    {
      var r := left[idx];
      assert r[0..] == r;
      if r[0] < maxValue {
        r := SkipTo(r, maxValue);
      }
      SkippedOne(left, now, maxValue, idx, r);
      now := now[idx := r];
      if r == [] {
        DroppingShrinks(left, now, maxValue, idx);
        return now, idx;
      }
    }
    MovedUp(left, now, maxValue, low);
  }

  /** The first stream, if any, that has run out. */
  method FirstEmpty(left: seq<seq<Id>>) returns (k: nat)
    ensures k <= |left|
    ensures if k < |left| then left[k] == [] else NoneEmpty(left)
  {
    k := 0;
    while k < |left| && left[k] != []
      invariant k <= |left| && forall i :: 0 <= i < k ==> left[i] != []
    {
      k := k + 1;
    }
  }

  // ---------------------------------------------------------------- what failed reads could have yielded

  /** Each stream with more at its end. */
  ghost function Extended(left: seq<seq<Id>>, more: seq<seq<Id>>): (r: seq<seq<Id>>)
    requires |left| == |more|
    ensures |r| == |left| && forall i :: 0 <= i < |left| ==> r[i] == left[i] + more[i]
  {
    seq(|left|, i requires 0 <= i < |left| => left[i] + more[i])
  }

  /** What the sources would have yielded beyond their items, in order: nothing unless the source failed. */
  ghost predicate Missed(iters: seq<Source>, more: seq<seq<Id>>) {
    && |more| == |iters| && AllNonDescending(Extended(Items(iters), more))
    && forall i :: 0 <= i < |iters| && iters[i].err == DONE ==> more[i] == []
  }

  ghost predicate Continues(given: seq<seq<Id>>, more: seq<seq<Id>>) {
    |more| == |given| && AllNonDescending(Extended(given, more))
  }

  ghost predicate StillRight(given: seq<seq<Id>>, out: seq<Id>, left: seq<seq<Id>>, more: seq<seq<Id>>) {
    |left| == |given| == |more| && Intersected(Extended(given, more), out, Extended(left, more))
  }

  /** What has been put out is right whatever the streams go on to yield. */
  ghost predicate Foreseen(given: seq<seq<Id>>, out: seq<Id>, left: seq<seq<Id>>) {
    forall more :: Continues(given, more) ==> StillRight(given, out, left, more)
  }

  function NoMore(n: nat): (r: seq<seq<Id>>)
    ensures |r| == n && forall i :: 0 <= i < n ==> r[i] == []
  {
    seq(n, _ => [])
  }

  lemma ExtendedByNothing(left: seq<seq<Id>>)
    ensures Extended(left, NoMore(|left|)) == left
  {
    forall i | 0 <= i < |left|
      ensures Extended(left, NoMore(|left|))[i] == left[i]
    {
      assert left[i] + [] == left[i];
    }
  }

  lemma ForeseenNow(given: seq<seq<Id>>, out: seq<Id>, left: seq<seq<Id>>)
    requires Foreseen(given, out, left) && AllNonDescending(given) && |left| == |given|
    ensures Intersected(given, out, left)
  {
    ExtendedByNothing(given);
    ExtendedByNothing(left);
    assert Continues(given, NoMore(|given|));
  }

  lemma StartsRight(all: seq<seq<Id>>)
    requires AllNonDescending(all)
    ensures Intersected(all, [], all)
  {
  }

  lemma ForeseeStart(given: seq<seq<Id>>)
    ensures Foreseen(given, [], given)
  {
    forall more | Continues(given, more)
      ensures StillRight(given, [], given, more)
    {
      StartsRight(Extended(given, more));
    }
  }

  lemma TailsExtended(left: seq<seq<Id>>, more: seq<seq<Id>>)
    requires |left| == |more| && NoneEmpty(left)
    ensures Tails(Extended(left, more)) == Extended(Tails(left), more)
  {
    forall i | 0 <= i < |left|
      ensures Tails(Extended(left, more))[i] == Extended(Tails(left), more)[i]
    {
      assert (left[i] + more[i])[1..] == left[i][1..] + more[i];
    }
  }

  lemma StillRightShared(given: seq<seq<Id>>, out: seq<Id>, left: seq<seq<Id>>, v0: Id, more: seq<seq<Id>>)
    requires StillRight(given, out, left, more) && left != [] && NoneEmpty(left)
    requires forall i :: 0 <= i < |left| ==> left[i][0] == v0
    ensures StillRight(given, out + (if v0 == EMPTY then [] else [v0]), Tails(left), more)
  {
    AdvanceShared(Extended(given, more), out, Extended(left, more), v0);
    TailsExtended(left, more);
  }

  lemma ForeseeShared(given: seq<seq<Id>>, out: seq<Id>, left: seq<seq<Id>>, v0: Id)
    requires Foreseen(given, out, left) && left != [] && NoneEmpty(left)
    requires forall i :: 0 <= i < |left| ==> left[i][0] == v0
    ensures Foreseen(given, out + (if v0 == EMPTY then [] else [v0]), Tails(left))
  {
    forall more | Continues(given, more)
      ensures StillRight(given, out + (if v0 == EMPTY then [] else [v0]), Tails(left), more)
    {
      StillRightShared(given, out, left, v0, more);
    }
  }

  lemma StillRightDrop(given: seq<seq<Id>>, out: seq<Id>, left: seq<seq<Id>>, now: seq<seq<Id>>, h: nat,
                       more: seq<seq<Id>>)
    requires StillRight(given, out, left, more) && |now| == |left| && h < |left| && left[h] != []
    requires forall i :: 0 <= i < |left| ==> DropsBelow(left[i], now[i], left[h][0])
    ensures StillRight(given, out, now, more)
  {
    forall i | 0 <= i < |left|
      ensures DropsBelow(Extended(left, more)[i], Extended(now, more)[i], left[h][0])
    {
      DropsBelowConcat(left[i], now[i], more[i], left[h][0]);
    }
    DropBelowKeeps(Extended(given, more), out, Extended(left, more), Extended(now, more), h);
  }

  lemma ForeseeDrop(given: seq<seq<Id>>, out: seq<Id>, left: seq<seq<Id>>, now: seq<seq<Id>>, h: nat)
    requires Foreseen(given, out, left) && |now| == |left| && h < |left| && left[h] != []
    requires forall i :: 0 <= i < |left| ==> DropsBelow(left[i], now[i], left[h][0])
    ensures Foreseen(given, out, now)
  {
    forall more | Continues(given, more)
      ensures StillRight(given, out, now, more)
    {
      StillRightDrop(given, out, left, now, h, more);
    }
  }

  /** The intersection of the streams, whatever they go on to yield except for stream `k`, which has run out. */
  lemma ForeseeEnd(given: seq<seq<Id>>, out: seq<Id>, left: seq<seq<Id>>, k: nat, more: seq<seq<Id>>)
    requires StillRight(given, out, left, more) && k < |left| && left[k] == [] && more[k] == []
    ensures Elems(out) == Common(Extended(given, more)) - {EMPTY}
  {
    EmptyStreamEndsIntersection(Extended(left, more), k);
  }

  /** `out` begins the set: the members that are missing from it come later. */
  ghost predicate Begins(out: seq<Id>, whole: set<Id>) {
    Elems(out) <= whole && forall x, v :: x in out && v in whole && v !in out ==> x <= v
  }

  lemma ForeseeBegins(given: seq<seq<Id>>, out: seq<Id>, left: seq<seq<Id>>, more: seq<seq<Id>>)
    requires StillRight(given, out, left, more)
    ensures Begins(out, Common(Extended(given, more)) - {EMPTY})
  {
    var whole, rest := Extended(given, more), Extended(left, more);
    forall x, v | x in out && v in Common(whole) - {EMPTY} && v !in out
      ensures x <= v
    {
      assert v in Elems(out) + (Common(rest) - {EMPTY});
    }
    forall x | x in Elems(out)
      ensures x in Common(whole) - {EMPTY}
    {
      assert x in Elems(out) + (Common(rest) - {EMPTY});
    }
  }

  /** Whatever the failed sources have missed, except for source `k`, the intersection is `out`. */
  ghost predicate Settles(iters: seq<Source>, k: nat, out: seq<Id>) {
    forall more :: Missed(iters, more) && k < |more| && more[k] == [] ==>
                     Elems(out) == Common(Extended(Items(iters), more)) - {EMPTY}
  }

  /** Whatever the failed sources have missed, `out` begins the intersection. */
  ghost predicate BeginsCommon(iters: seq<Source>, out: seq<Id>) {
    forall more :: Missed(iters, more) ==> Begins(out, Common(Extended(Items(iters), more)) - {EMPTY})
  }

  /** Runs until a stream has run out. */
  method IntersectAll(batch: Batcher, given: seq<seq<Id>>) returns (left: seq<seq<Id>>, ended: nat)
    requires given != [] && batch.Valid() && batch.Added() == []
    modifies batch
    ensures batch.Valid() && |left| == |given| && ended < |left| && left[ended] == []
    ensures Foreseen(given, batch.Added(), left)
  {
    left := given;
    ForeseeStart(given);
    ended := FirstEmpty(left);
    while ended == |given|
      invariant |left| == |given| && ended <= |given| && batch.Valid()
      invariant if ended < |left| then left[ended] == [] else NoneEmpty(left)
      invariant Foreseen(given, batch.Added(), left)
      decreases Total(left)
    {
      var maxValue, allSame := GreatestHead(left);
      if allSame {
        TailsShrinkTotal(left);
        ForeseeShared(given, batch.Added(), left, maxValue);
        batch.Add(maxValue);
        left := Tails(left);
        ended := FirstEmpty(left);
      } else {
        ghost var before, h :| before == left && 0 <= h < |left| && left[h][0] == maxValue;
        left, ended := SkipAll(left, maxValue);
        ForeseeDrop(given, batch.Added(), before, left, h);
      }
    }
  }

  method ResolveIntersection(iters: seq<Source>) returns (msgs: seq<Msg>)
    requires AllNonDescending(Items(iters))
    ensures Elems(Delivered(msgs)) == Common(Items(iters)) - {EMPTY}
    ensures NonDescending(Delivered(msgs))
    ensures AllAscending(Items(iters)) ==> Ascending(Delivered(msgs))
    // the channel ends as a source that ran out did, and what that one has yielded settles the intersection:
    // without an error, no failed read can have made a difference
    ensures if iters == [] then msgs == []
            else exists k :: 0 <= k < |iters| && iters[k].err == FailureOf(msgs) && Settles(iters, k, Delivered(msgs))
    ensures iters != [] ==> BeginsCommon(iters, Delivered(msgs))
  {
    if iters == [] {
      return [];
    }
    var batch := new Batcher();
    var left, ended := IntersectAll(batch, Items(iters));
    ForeseenNow(Items(iters), batch.Added(), left);
    EmptyStreamEndsIntersection(left, ended);
    IntersectionEnds(iters, batch.Added(), left, ended);
    msgs := batch.Close(iters[ended].err);
  }

  lemma IntersectionEnds(iters: seq<Source>, out: seq<Id>, left: seq<seq<Id>>, k: nat)
    requires Foreseen(Items(iters), out, left) && |left| == |iters| && k < |left| && left[k] == []
    ensures Settles(iters, k, out) && BeginsCommon(iters, out)
  {
    forall more | Missed(iters, more)
      ensures Begins(out, Common(Extended(Items(iters), more)) - {EMPTY})
      ensures more[k] == [] ==> Elems(out) == Common(Extended(Items(iters), more)) - {EMPTY}
    {
      assert Continues(Items(iters), more);
      ForeseeBegins(Items(iters), out, left, more);
      if more[k] == [] {
        ForeseeEnd(Items(iters), out, left, k, more);
      }
    }
  }

  // ---------------------------------------------------------------- difference

  /** What the difference of two non-descending streams puts out: repetitions cancel one by one. */
  ghost function Remainder(base: seq<Id>, sub: seq<Id>): multiset<Id> {
    multiset(base) - multiset(sub)
  }

  lemma SplitHead(s: seq<Id>)
    requires s != []
    ensures multiset(s) == multiset{s[0]} + multiset(s[1..])
  {
    assert s == [s[0]] + s[1..];
  }

  lemma SkipKeepsRemainder(base: seq<Id>, sub: seq<Id>, r: seq<Id>)
    requires NonDescending(base) && base != [] && |r| <= |sub| && r == sub[|sub| - |r|..]
    requires forall i :: 0 <= i < |sub| - |r| ==> sub[i] < base[0]
    ensures Remainder(base, r) == Remainder(base, sub)
  {
    var skipped := sub[..|sub| - |r|];
    assert sub == skipped + r;
    HeadIsLeast(base);
    forall v
      ensures Remainder(base, r)[v] == Remainder(base, sub)[v]
    {
      if v in multiset(skipped) {
        assert v !in base;
      }
    }
  }

  lemma KeepHead(base: seq<Id>, sub: seq<Id>)
    requires base != [] && NonDescending(sub) && (sub != [] ==> base[0] < sub[0])
    ensures Remainder(base, sub) == multiset{base[0]} + Remainder(base[1..], sub)
  {
    SplitHead(base);
    if sub != [] {
      HeadIsLeast(sub);
    }
    assert base[0] !in sub;
  }

  lemma CancelHeads(base: seq<Id>, sub: seq<Id>)
    requires base != [] && sub != [] && base[0] == sub[0]
    ensures Remainder(base, sub) == Remainder(base[1..], sub[1..])
  {
    SplitHead(base);
    SplitHead(sub);
  }

  /** `out` holds what has been put out (the empty id left aside) of `all`; `rest` is still to come. */
  ghost predicate Subtracted(all: multiset<Id>, out: seq<Id>, rest: multiset<Id>, base: seq<Id>) {
    && (multiset(out) + rest)[EMPTY := 0] == all[EMPTY := 0]
    && multiset(out)[EMPTY] == 0
    && NonDescending(out) && NonDescending(base)
    && (forall x, v :: x in out && v in base ==> x <= v)
  }

  lemma PutOutHead(all: multiset<Id>, out: seq<Id>, rest: multiset<Id>, rest': multiset<Id>, base: seq<Id>)
    requires base != [] && Subtracted(all, out, rest, base) && rest == multiset{base[0]} + rest'
    ensures Subtracted(all, out + (if base[0] == EMPTY then [] else [base[0]]), rest', base[1..])
  {
    var v0 := base[0];
    var out' := out + if v0 == EMPTY then [] else [v0];
    HeadIsLeast(base);
    AppendKeepsOrder(out, v0);
    assert v0 in base;
    assert multiset(out') == multiset(out) + if v0 == EMPTY then multiset{} else multiset{v0};
    assert (multiset(out') + rest')[EMPTY := 0] == (multiset(out) + rest)[EMPTY := 0];
    assert forall x :: x in out' ==> x in out || x == v0;
  }

  ghost predicate Subtracting(all: multiset<Id>, out: seq<Id>, base: seq<Id>, sub: seq<Id>) {
    Subtracted(all, out, Remainder(base, sub), base) && NonDescending(sub)
  }

  lemma CancelStep(all: multiset<Id>, out: seq<Id>, base: seq<Id>, sub: seq<Id>)
    requires Subtracting(all, out, base, sub) && base != [] && sub != [] && base[0] == sub[0]
    ensures Subtracting(all, out, base[1..], sub[1..])
  {
    CancelHeads(base, sub);
    HeadIsLeast(base);
    HeadIsLeast(sub);
  }

  lemma KeepStep(all: multiset<Id>, out: seq<Id>, base: seq<Id>, sub: seq<Id>)
    requires Subtracting(all, out, base, sub) && base != [] && (sub != [] ==> base[0] < sub[0])
    ensures Subtracting(all, out + (if base[0] == EMPTY then [] else [base[0]]), base[1..], sub)
  {
    KeepHead(base, sub);
    PutOutHead(all, out, Remainder(base, sub), Remainder(base[1..], sub), base);
  }

  lemma SkipStep(all: multiset<Id>, out: seq<Id>, base: seq<Id>, sub: seq<Id>, r: seq<Id>)
    requires Subtracting(all, out, base, sub) && base != [] && |r| <= |sub| && r == sub[|sub| - |r|..]
    requires forall i :: 0 <= i < |sub| - |r| ==> sub[i] < base[0]
    ensures Subtracting(all, out, base, r)
  {
    SkipKeepsRemainder(base, sub, r);
  }

  /** What has been put out is right, and all of it once the base is used up. */
  lemma SubtractedMeans(all: multiset<Id>, out: seq<Id>, base: seq<Id>, sub: seq<Id>)
    requires Subtracting(all, out, base, sub)
    ensures multiset(out) <= all && NonDescending(out)
    ensures base == [] ==> multiset(out) == all[EMPTY := 0]
    ensures base == [] ==> Subtracting(all, out, [], [])
  {
    var rest := Remainder(base, sub);
    assert base == [] ==> rest == multiset{} == Remainder([], []);
    forall v
      ensures multiset(out)[v] <= all[v]
    {
      if v != EMPTY {
        assert (multiset(out) + rest)[EMPTY := 0][v] == all[EMPTY := 0][v];
      }
    }
    if rest == multiset{} {
      assert multiset(out)[EMPTY := 0] == multiset(out);
    }
  }

  // ---------------------------------------------------------------- the difference and failed reads

  /** The base is not used up when the subtracted stream is. */
  ghost predicate Beyond(base: seq<Id>, sub: seq<Id>) {
    base != [] &&
    (sub != [] ==>
       var b, s := base[|base| - 1], sub[|sub| - 1];
       s < b || (s == b && multiset(sub)[b] < multiset(base)[b]))
  }

  lemma LastIsGreatest(s: seq<Id>)
    requires NonDescending(s) && s != []
    ensures forall v :: v in s ==> v <= s[|s| - 1]
    ensures s[|s| - 1] in s && multiset(s)[s[|s| - 1]] >= 1
  {
  }

  lemma BeyondCancel(base: seq<Id>, sub: seq<Id>)
    requires NonDescending(base) && NonDescending(sub) && base != [] && sub != [] && base[0] == sub[0]
    ensures Beyond(base, sub) <==> Beyond(base[1..], sub[1..])
  {
    SplitHead(base);
    SplitHead(sub);
    LastIsGreatest(base);
    LastIsGreatest(sub);
    if base[1..] != [] && sub[1..] == [] {
      assert multiset(base[1..])[base[|base| - 1]] >= 1 by {
        assert base[1..][|base| - 2] == base[|base| - 1];
      }
    }
  }

  lemma BeyondKeep(base: seq<Id>, sub: seq<Id>)
    requires NonDescending(base) && NonDescending(sub) && base != [] && sub != [] && base[0] < sub[0]
    ensures Beyond(base, sub) <==> Beyond(base[1..], sub)
  {
    SplitHead(base);
    LastIsGreatest(sub);
    assert sub[0] in sub;
  }

  lemma BeyondSkip(base: seq<Id>, sub: seq<Id>, r: seq<Id>)
    requires NonDescending(base) && NonDescending(sub) && base != [] && sub != [] && DropsBelow(sub, r, base[0])
    ensures Beyond(base, sub) <==> Beyond(base, r)
  {
    LastIsGreatest(base);
    assert base[0] in base;
    var skipped := sub[..|sub| - |r|];
    assert sub == skipped + r;
    var b := base[|base| - 1];
    assert b !in skipped && b !in multiset(skipped);
  }

  ghost predicate ContinueBoth(base: seq<Id>, sub: seq<Id>, b: seq<Id>, s: seq<Id>) {
    NonDescending(base + b) && NonDescending(sub + s)
  }

  ghost predicate StillSubtracting(base0: seq<Id>, sub0: seq<Id>, out: seq<Id>, base: seq<Id>, sub: seq<Id>,
                                   b: seq<Id>, s: seq<Id>) {
    Subtracting(Remainder(base0 + b, sub0 + s), out, base + b, sub + s)
  }

  /** What has been put out is right whatever the two streams go on to yield. */
  ghost predicate ForeseenBoth(base0: seq<Id>, sub0: seq<Id>, out: seq<Id>, base: seq<Id>, sub: seq<Id>) {
    forall b, s :: ContinueBoth(base0, sub0, b, s) ==> StillSubtracting(base0, sub0, out, base, sub, b, s)
  }

  /** The same, when nothing more is subtracted. */
  ghost predicate ForeseenBase(base0: seq<Id>, sub0: seq<Id>, out: seq<Id>, base: seq<Id>) {
    forall b :: ContinueBoth(base0, sub0, b, []) ==> StillSubtracting(base0, sub0, out, base, [], b, [])
  }

  lemma ForeseeBothStart(base0: seq<Id>, sub0: seq<Id>)
    ensures ForeseenBoth(base0, sub0, [], base0, sub0)
  {
    forall b, s | ContinueBoth(base0, sub0, b, s)
      ensures StillSubtracting(base0, sub0, [], base0, sub0, b, s)
    {
      assert multiset([]) + Remainder(base0 + b, sub0 + s) == Remainder(base0 + b, sub0 + s);
    }
  }

  lemma ForeseeCancel(base0: seq<Id>, sub0: seq<Id>, out: seq<Id>, base: seq<Id>, sub: seq<Id>)
    requires ForeseenBoth(base0, sub0, out, base, sub) && base != [] && sub != [] && base[0] == sub[0]
    ensures ForeseenBoth(base0, sub0, out, base[1..], sub[1..])
  {
    forall b, s | ContinueBoth(base0, sub0, b, s)
      ensures StillSubtracting(base0, sub0, out, base[1..], sub[1..], b, s)
    {
      CancelStep(Remainder(base0 + b, sub0 + s), out, base + b, sub + s);
      assert (base + b)[1..] == base[1..] + b && (sub + s)[1..] == sub[1..] + s;
    }
  }

  lemma StillKeep(all: multiset<Id>, out: seq<Id>, base: seq<Id>, b: seq<Id>, sub: seq<Id>)
    requires Subtracting(all, out, base + b, sub) && base != [] && (sub != [] ==> base[0] < sub[0])
    ensures Subtracting(all, out + (if base[0] == EMPTY then [] else [base[0]]), base[1..] + b, sub)
  {
    var whole, v0 := base + b, base[0];
    assert whole[0] == v0 && whole[1..] == base[1..] + b;
    KeepStep(all, out, whole, sub);
  }

  lemma ForeseeKeep(base0: seq<Id>, sub0: seq<Id>, out: seq<Id>, base: seq<Id>, sub: seq<Id>)
    requires ForeseenBoth(base0, sub0, out, base, sub) && base != [] && sub != [] && base[0] < sub[0]
    ensures ForeseenBoth(base0, sub0, out + (if base[0] == EMPTY then [] else [base[0]]), base[1..], sub)
  {
    forall b, s | ContinueBoth(base0, sub0, b, s)
      ensures StillSubtracting(base0, sub0, out + (if base[0] == EMPTY then [] else [base[0]]), base[1..], sub, b, s)
    {
      assert (sub + s)[0] == sub[0];
      StillKeep(Remainder(base0 + b, sub0 + s), out, base, b, sub + s);
    }
  }

  lemma ForeseeSkip(base0: seq<Id>, sub0: seq<Id>, out: seq<Id>, base: seq<Id>, sub: seq<Id>, r: seq<Id>)
    requires ForeseenBoth(base0, sub0, out, base, sub) && base != [] && DropsBelow(sub, r, base[0])
    ensures ForeseenBoth(base0, sub0, out, base, r)
  {
    forall b, s | ContinueBoth(base0, sub0, b, s)
      ensures StillSubtracting(base0, sub0, out, base, r, b, s)
    {
      DropsBelowConcat(sub, r, s, base[0]);
      SkipStep(Remainder(base0 + b, sub0 + s), out, base + b, sub + s, r + s);
    }
  }

  lemma ForeseeDrain(base0: seq<Id>, sub0: seq<Id>, out: seq<Id>, base: seq<Id>)
    requires ForeseenBase(base0, sub0, out, base) && base != []
    ensures ForeseenBase(base0, sub0, out + (if base[0] == EMPTY then [] else [base[0]]), base[1..])
  {
    forall b | ContinueBoth(base0, sub0, b, [])
      ensures StillSubtracting(base0, sub0, out + (if base[0] == EMPTY then [] else [base[0]]), base[1..], [], b, [])
    {
      var none: seq<Id> := [];
      assert none + none == none;
      StillKeep(Remainder(base0 + b, sub0 + none), out, base, b, none);
    }
  }

  /** While both streams have a head: equal heads cancel, a lower base head is put out, a lower other is skipped. */
  method SubtractWhileBoth(batch: Batcher, base0: seq<Id>, sub0: seq<Id>) returns (base: seq<Id>, sub: seq<Id>)
    requires batch.Valid() && batch.Added() == [] && NonDescending(base0) && NonDescending(sub0)
    modifies batch
    ensures batch.Valid() && (base == [] || sub == [])
    ensures ForeseenBoth(base0, sub0, batch.Added(), base, sub)
    ensures base != [] <==> Beyond(base0, sub0)
  {
    base, sub := base0, sub0;
    ForeseeBothStart(base0, sub0);
    while base != [] && sub != []
      invariant batch.Valid() && ForeseenBoth(base0, sub0, batch.Added(), base, sub)
      invariant NonDescending(base) && NonDescending(sub) && (Beyond(base, sub) <==> Beyond(base0, sub0))
      decreases |base| + |sub|
    {
      if base[0] == sub[0] {
        ForeseeCancel(base0, sub0, batch.Added(), base, sub);
        BeyondCancel(base, sub);
        base, sub := base[1..], sub[1..];
      } else if sub[0] > base[0] {
        ForeseeKeep(base0, sub0, batch.Added(), base, sub);
        BeyondKeep(base, sub);
        batch.Add(base[0]);
        base := base[1..];
      } else {
        var r := SkipTo(sub, base[0]);
        ForeseeSkip(base0, sub0, batch.Added(), base, sub, r);
        BeyondSkip(base, sub, r);
        sub := r;
      }
    }
  }

  method DrainBase(batch: Batcher, base: seq<Id>, ghost base0: seq<Id>, ghost sub0: seq<Id>)
    requires batch.Valid() && ForeseenBase(base0, sub0, batch.Added(), base)
    modifies batch
    ensures batch.Valid() && ForeseenBase(base0, sub0, batch.Added(), [])
  {
    var left := base;
    while left != []
      invariant batch.Valid() && ForeseenBase(base0, sub0, batch.Added(), left)
      decreases |left|
    {
      ForeseeDrain(base0, sub0, batch.Added(), left);
      batch.Add(left[0]);
      left := left[1..];
    }
  }

  /** The difference of what the sources would have yielded in full. */
  ghost function FullDifference(iters: seq<Source>, more: seq<seq<Id>>): multiset<Id>
    requires 1 <= |iters| == |more|
  {
    Remainder(iters[0].items + more[0], SubtrahendItems(iters) + if |more| == 2 then more[1] else [])
  }

  /** `out` begins the difference: what is missing from it comes later. The empty id is left aside. */
  ghost predicate BeginsBag(out: seq<Id>, whole: multiset<Id>) {
    && multiset(out) <= whole && EMPTY !in out
    && forall x, v :: x in out && v != EMPTY && multiset(out)[v] < whole[v] ==> x <= v
  }

  /** The subtracted source has failed, and the base has more than it can be compared with. */
  ghost predicate SubtrahendFails(iters: seq<Source>) {
    |iters| == 2 && iters[1].err != DONE && Beyond(iters[0].items, iters[1].items)
  }

  /** Puts out the difference; `ended` is the source whose end stops it. */
  method Subtract(batch: Batcher, iters: seq<Source>) returns (ended: nat)
    requires 1 <= |iters| <= 2 && AllNonDescending(Items(iters)) && batch.Valid() && batch.Added() == []
    modifies batch
    ensures batch.Valid() && ended == if SubtrahendFails(iters) then 1 else 0
    ensures forall more :: Missed(iters, more) ==> InProgress(iters, batch.Added(), more)
    ensures ended == 0 ==> forall more :: Missed(iters, more) ==> BaseUsed(iters, batch.Added(), more)
  {
    var base := iters[0].items;
    ghost var base0, sub0 := base, SubtrahendItems(iters);
    ForeseeBothStart(base0, sub0);
    ghost var rest := sub0;
    if |iters| == 2 && base != [] {
      base, rest := SubtractWhileBoth(batch, base, iters[1].items);
      // base and subtrahend can run out on equal heads together, and then the base decides
      if base != [] && iters[1].err != DONE {
        CutShort(iters, batch.Added(), base, rest);
        return 1;
      }
    }
    if base == [] {
      UsedUp(iters, batch.Added(), rest);
    } else {
      DrainStarts(base0, sub0, batch.Added(), base);
      DrainBase(batch, base, base0, sub0);
      Drained(iters, batch.Added());
    }
    UsedIsProgress(iters, batch.Added());
    ended := 0;
  }

  method ResolveDifference(iters: seq<Source>) returns (msgs: seq<Msg>)
    requires 1 <= |iters| <= 2 && AllNonDescending(Items(iters))
    ensures FailureOf(msgs) == DONE ==> multiset(Delivered(msgs)) == DifferenceOf(iters)[EMPTY := 0]
    // after an error, what has been put out is still right, only incomplete
    ensures multiset(Delivered(msgs)) <= DifferenceOf(iters)
    ensures NonDescending(Delivered(msgs))
    // the subtracted stream's error is reported exactly when the base outlasts it, else the base's
    ensures FailureOf(msgs) == if SubtrahendFails(iters) then iters[1].err else iters[0].err
    // without an error, no failed read can have made a difference; with one, what is missing comes later
    ensures forall more :: Missed(iters, more) ==> BeginsBag(Delivered(msgs), FullDifference(iters, more))
    ensures FailureOf(msgs) == DONE ==> forall more :: Missed(iters, more) ==>
              multiset(Delivered(msgs)) == FullDifference(iters, more)[EMPTY := 0]
    // a base without repetitions gives the difference of the sets, again without repetitions
    ensures Ascending(iters[0].items) ==> Ascending(Delivered(msgs))
    ensures FailureOf(msgs) == DONE && Ascending(iters[0].items) ==>
              Elems(Delivered(msgs)) == Elems(iters[0].items) - Subtrahend(iters) - {EMPTY}
    // in general the result is the difference of the sets exactly when all repetitions cancel
    ensures |iters| == 2 && FailureOf(msgs) == DONE ==>
              (Elems(Delivered(msgs)) == Elems(iters[0].items) - Elems(iters[1].items) - {EMPTY}
               <==> CancelsAll(iters[0].items, iters[1].items))
  {
    var batch := new Batcher();
    var ended := Subtract(batch, iters);
    DifferenceSoFar(iters, batch.Added());
    msgs := batch.Close(iters[ended].err);
    if ended == 0 && iters[0].err == DONE {
      UsedIsAll(iters, Delivered(msgs));
      NothingMissed(iters);
      DifferenceMeans(iters, Delivered(msgs));
    }
  }

  /** Whatever was missed, the base is used up except for what it missed itself. */
  ghost predicate BaseUsed(iters: seq<Source>, out: seq<Id>, more: seq<seq<Id>>)
    requires 1 <= |iters| == |more|
  {
    exists s :: Subtracting(FullDifference(iters, more), out, more[0], s)
  }

  ghost predicate InProgress(iters: seq<Source>, out: seq<Id>, more: seq<seq<Id>>)
    requires 1 <= |iters| == |more|
  {
    exists b, s :: Subtracting(FullDifference(iters, more), out, b, s)
  }

  lemma MissedContinues(iters: seq<Source>, more: seq<seq<Id>>)
    requires 1 <= |iters| <= 2 && Missed(iters, more)
    ensures ContinueBoth(iters[0].items, SubtrahendItems(iters), more[0], if |more| == 2 then more[1] else [])
  {
    var whole := Extended(Items(iters), more);
    assert NonDescending(whole[0]) && (|iters| == 2 ==> NonDescending(whole[1]));
  }

  lemma CutShort(iters: seq<Source>, out: seq<Id>, base: seq<Id>, sub: seq<Id>)
    requires 1 <= |iters| <= 2 && ForeseenBoth(iters[0].items, SubtrahendItems(iters), out, base, sub)
    ensures forall more :: Missed(iters, more) ==> InProgress(iters, out, more)
  {
    forall more | Missed(iters, more)
      ensures InProgress(iters, out, more)
    {
      var s := if |more| == 2 then more[1] else [];
      MissedContinues(iters, more);
      assert StillSubtracting(iters[0].items, SubtrahendItems(iters), out, base, sub, more[0], s);
      assert Subtracting(FullDifference(iters, more), out, base + more[0], sub + s);
    }
  }

  lemma UsedUp(iters: seq<Source>, out: seq<Id>, sub: seq<Id>)
    requires 1 <= |iters| <= 2 && ForeseenBoth(iters[0].items, SubtrahendItems(iters), out, [], sub)
    ensures forall more :: Missed(iters, more) ==> BaseUsed(iters, out, more)
  {
    forall more | Missed(iters, more)
      ensures BaseUsed(iters, out, more)
    {
      var s := if |more| == 2 then more[1] else [];
      MissedContinues(iters, more);
      assert StillSubtracting(iters[0].items, SubtrahendItems(iters), out, [], sub, more[0], s);
      assert [] + more[0] == more[0];
      assert Subtracting(FullDifference(iters, more), out, more[0], sub + s);
    }
  }

  lemma DrainStarts(base0: seq<Id>, sub0: seq<Id>, out: seq<Id>, base: seq<Id>)
    requires ForeseenBoth(base0, sub0, out, base, [])
    ensures ForeseenBase(base0, sub0, out, base)
  {
  }

  lemma Drained(iters: seq<Source>, out: seq<Id>)
    requires 1 <= |iters| <= 2 && ForeseenBase(iters[0].items, SubtrahendItems(iters), out, [])
    requires |iters| == 2 ==> iters[1].err == DONE
    ensures forall more :: Missed(iters, more) ==> BaseUsed(iters, out, more)
  {
    forall more | Missed(iters, more)
      ensures BaseUsed(iters, out, more)
    {
      MissedContinues(iters, more);
      assert (if |more| == 2 then more[1] else []) == [];
      assert StillSubtracting(iters[0].items, SubtrahendItems(iters), out, [], [], more[0], []);
      assert [] + more[0] == more[0];
      assert Subtracting(FullDifference(iters, more), out, more[0], [] + []);
    }
  }

  lemma ProgressBegins(all: multiset<Id>, out: seq<Id>, base: seq<Id>, sub: seq<Id>)
    requires Subtracting(all, out, base, sub)
    ensures BeginsBag(out, all)
  {
    SubtractedMeans(all, out, base, sub);
    var rest := Remainder(base, sub);
    forall x, v | x in out && v != EMPTY && multiset(out)[v] < all[v]
      ensures x <= v
    {
      assert (multiset(out) + rest)[EMPTY := 0][v] == all[EMPTY := 0][v];
      assert v in multiset(base) && v in base;
    }
    assert EMPTY !in multiset(out);
  }

  lemma UsedIsProgress(iters: seq<Source>, out: seq<Id>)
    requires 1 <= |iters| <= 2 && forall more :: Missed(iters, more) ==> BaseUsed(iters, out, more)
    ensures forall more :: Missed(iters, more) ==> InProgress(iters, out, more)
  {
    forall more | Missed(iters, more)
      ensures InProgress(iters, out, more)
    {
      assert BaseUsed(iters, out, more);
    }
  }

  /** With the base used up and complete, what was put out is the difference whatever the subtracted source missed. */
  lemma UsedIsAll(iters: seq<Source>, out: seq<Id>)
    requires 1 <= |iters| <= 2 && iters[0].err == DONE
    requires forall more :: Missed(iters, more) ==> BaseUsed(iters, out, more)
    ensures forall more :: Missed(iters, more) ==> multiset(out) == FullDifference(iters, more)[EMPTY := 0]
  {
    forall more | Missed(iters, more)
      ensures multiset(out) == FullDifference(iters, more)[EMPTY := 0]
    {
      assert BaseUsed(iters, out, more);
      var s :| Subtracting(FullDifference(iters, more), out, more[0], s);
      SubtractedMeans(FullDifference(iters, more), out, more[0], s);
    }
  }

  lemma DifferenceSoFar(iters: seq<Source>, out: seq<Id>)
    requires 1 <= |iters| <= 2 && AllNonDescending(Items(iters))
    requires forall more :: Missed(iters, more) ==> InProgress(iters, out, more)
    ensures forall more :: Missed(iters, more) ==> BeginsBag(out, FullDifference(iters, more))
    ensures multiset(out) <= DifferenceOf(iters) && NonDescending(out)
    ensures Ascending(iters[0].items) ==> Ascending(out)
  {
    forall more | Missed(iters, more)
      ensures BeginsBag(out, FullDifference(iters, more))
    {
      assert InProgress(iters, out, more);
      var b, s :| Subtracting(FullDifference(iters, more), out, b, s);
      ProgressBegins(FullDifference(iters, more), out, b, s);
    }
    NothingMissed(iters);
    assert InProgress(iters, out, NoMore(|iters|));
    var b, s :| Subtracting(DifferenceOf(iters), out, b, s);
    SubtractedMeans(DifferenceOf(iters), out, b, s);
    if Ascending(iters[0].items) {
      PartIsAscending(iters[0].items, out);
    }
  }

  lemma NothingMissed(iters: seq<Source>)
    requires 1 <= |iters| <= 2 && AllNonDescending(Items(iters))
    ensures Missed(iters, NoMore(|iters|)) && FullDifference(iters, NoMore(|iters|)) == DifferenceOf(iters)
  {
    ExtendedByNothing(Items(iters));
    assert iters[0].items + [] == iters[0].items && (|iters| == 2 ==> iters[1].items + [] == iters[1].items);
  }

  ghost function SubtrahendItems(iters: seq<Source>): seq<Id> {
    if |iters| == 2 then iters[1].items else []
  }

  ghost function Subtrahend(iters: seq<Source>): set<Id> {
    if |iters| == 2 then Elems(iters[1].items) else {}
  }

  /** What the whole difference is as a set. */
  lemma DifferenceMeans(iters: seq<Source>, out: seq<Id>)
    requires 1 <= |iters| <= 2 && multiset(out) == DifferenceOf(iters)[EMPTY := 0] && NonDescending(out)
    ensures Ascending(iters[0].items) ==> Ascending(out)
    ensures Ascending(iters[0].items) ==> Elems(out) == Elems(iters[0].items) - Subtrahend(iters) - {EMPTY}
    ensures |iters| == 2 ==>
              (Elems(out) == Elems(iters[0].items) - Elems(iters[1].items) - {EMPTY}
               <==> CancelsAll(iters[0].items, iters[1].items))
  {
    if Ascending(iters[0].items) {
      PartIsAscending(iters[0].items, out);
    }
    if |iters| == 1 {
      NothingSubtracted(iters[0].items, out);
    } else {
      DifferenceExactIff(iters[0].items, iters[1].items, out);
      if Ascending(iters[0].items) {
        AscendingCancels(iters[0].items, iters[1].items);
      }
    }
  }

  ghost function DifferenceOf(iters: seq<Source>): multiset<Id>
    requires 1 <= |iters|
  {
    Remainder(iters[0].items, if |iters| == 1 then [] else iters[1].items)
  }

  lemma AscendingCounts(s: seq<Id>, v: Id)
    requires Ascending(s)
    ensures multiset(s)[v] == if v in s then 1 else 0
  {
    if v in s {
      var i :| 0 <= i < |s| && s[i] == v;
      var a, b := s[..i], s[i + 1..];
      assert multiset(s) == multiset(a) + multiset([v]) + multiset(b) by {
        assert s == a + [v] + b;
      }
      assert v !in a && v !in b;
      assert v !in multiset(a) && v !in multiset(b);
    }
  }

  /** What is left of a stream without repetitions has none either. */
  lemma PartIsAscending(base: seq<Id>, out: seq<Id>)
    requires Ascending(base) && NonDescending(out) && multiset(out) <= multiset(base)
    ensures Ascending(out)
  {
    forall i, j | 0 <= i < j < |out|
      ensures out[i] != out[j]
    {
      AscendingCounts(base, out[i]);
      assert out == out[..i] + [out[i]] + out[i + 1..];
      assert multiset(out) == multiset(out[..i]) + multiset{out[i]} + multiset(out[i + 1..]);
      assert out[j] == out[i + 1..][j - i - 1];
      assert out[j] in multiset(out[i + 1..]);
    }
  }

  lemma AscendingCancels(base: seq<Id>, sub: seq<Id>)
    requires Ascending(base)
    ensures CancelsAll(base, sub)
  {
    forall v | v in base && v in sub
      ensures multiset(base)[v] <= multiset(sub)[v]
    {
      AscendingCounts(base, v);
      assert v in multiset(sub);
    }
  }

  lemma NothingSubtracted(base: seq<Id>, out: seq<Id>)
    requires multiset(out) == multiset(base)[EMPTY := 0]
    ensures Elems(out) == Elems(base) - {EMPTY}
  {
    forall v
      ensures v in out <==> v in base && v != EMPTY
    {
      assert v in out <==> v in multiset(out);
      assert v in base <==> v in multiset(base);
    }
  }

  /** No id that both streams hold is repeated more often in the base than in what is subtracted. */
  ghost predicate CancelsAll(base: seq<Id>, sub: seq<Id>) {
    forall v :: v in base && v in sub && v != EMPTY ==> multiset(base)[v] <= multiset(sub)[v]
  }

  /** What the operator delivers is the difference of the sets iff all repetitions cancel. */
  lemma DifferenceExactIff(base: seq<Id>, sub: seq<Id>, out: seq<Id>)
    requires multiset(out) == Remainder(base, sub)[EMPTY := 0]
    ensures Elems(out) == Elems(base) - Elems(sub) - {EMPTY} <==> CancelsAll(base, sub)
  {
    forall v
      ensures v in Elems(out) <==> v != EMPTY && multiset(base)[v] > multiset(sub)[v]
      ensures v in base <==> multiset(base)[v] > 0
      ensures v in sub <==> multiset(sub)[v] > 0
    {
      assert v in out <==> multiset(out)[v] > 0;
    }
    if !CancelsAll(base, sub) {
      var v :| v in base && v in sub && v != EMPTY && multiset(base)[v] > multiset(sub)[v];
      assert v in Elems(out) && v !in Elems(base) - Elems(sub) - {EMPTY};
    }
  }
}
