/**
 The v1 set operations on chunked streams. They are exact on the ids that the streams deliver,
 so the way a stream is cut into chunks does not matter, and they always come to an end.
 */
module FastPath {
  import opened Ids
  import opened Sorted
  import opened Channels
  import opened BottomUp
  import opened ChunkStreams

  // ---------------------------------------------------------------- output

  /** Messages already sent, and the batch being filled. */
  datatype Out = Out(msgs: seq<Msg>, batch: seq<Id>)

  ghost function Sent(o: Out): seq<Id> {
    Delivered(o.msgs) + o.batch
  }

  method AddItem(o: Out, item: Id) returns (o': Out)
    requires NoFailure(o.msgs)
    ensures NoFailure(o'.msgs)
    ensures Sent(o') == Sent(o) + (if item == EMPTY then [] else [item]) && |o'.batch| <= BATCH_THRESHOLD
  {
    o' := o;
    if item != EMPTY {
      o' := o.(batch := o.batch + [item]);
      assert Delivered(o.msgs) + (o.batch + [item]) == Delivered(o.msgs) + o.batch + [item];
    }
    o' := SendFull(o');
  }

  method SendFull(o: Out) returns (o': Out)
    requires NoFailure(o.msgs)
    ensures NoFailure(o'.msgs) && Sent(o') == Sent(o)
    ensures |o'.batch| <= BATCH_THRESHOLD && (|o.batch| <= BATCH_THRESHOLD ==> o' == o)
  {
    o' := o;
    if |o.batch| > BATCH_THRESHOLD {
      DeliveredAppend(o.msgs, Chunk(o.batch));
      o' := Out(o.msgs + [Chunk(o.batch)], []);
    }
  }

  /** Flushes the batch and closes the channel. */
  method Finish(o: Out) returns (msgs: seq<Msg>)
    requires NoFailure(o.msgs)
    ensures NoFailure(msgs) && Delivered(msgs) == Sent(o) && FailureOf(msgs) == DONE
    ensures forall m :: m in msgs && m !in o.msgs ==> m.items != []
  {
    msgs := o.msgs;
    if |o.batch| > 0 {
      DeliveredAppend(o.msgs, Chunk(o.batch));
      msgs := o.msgs + [Chunk(o.batch)];
    }
    ChunksDoNotFail(msgs);
  }

  /** Reports the error; the batch is still flushed, but behind it. */
  method Fail(o: Out, err: ErrorCode) returns (msgs: seq<Msg>)
    requires NoFailure(o.msgs)
    ensures FailureOf(msgs) == err && Delivered(msgs) <= Sent(o)
    ensures Failure(err) in msgs && (o.batch != [] ==> msgs[|msgs| - 1] == Chunk(o.batch))
    ensures forall m :: m in msgs && m.Chunk? && m !in o.msgs ==> m.items != []
  {
    msgs := o.msgs + [Failure(err)];
    DeliveredAppend(o.msgs, Failure(err));
    if |o.batch| > 0 {
      AfterFailure(o.msgs, err, Chunk(o.batch));
      msgs := msgs + [Chunk(o.batch)];
    }
  }

  lemma {:induction false} AfterFailure(msgs: seq<Msg>, err: ErrorCode, m: Msg)
    requires NoFailure(msgs)
    ensures Delivered(msgs + [Failure(err)] + [m]) == Delivered(msgs)
    ensures FailureOf(msgs + [Failure(err)] + [m]) == err
  {
    if msgs != [] {
      assert msgs[0] in msgs;
      assert (msgs + [Failure(err)] + [m])[1..] == msgs[1..] + [Failure(err)] + [m];
      AfterFailure(msgs[1..], err, m);
    }
  }

  // ---------------------------------------------------------------- union

  /** Every stream whose head is `v` moves past it. */
  ghost function DropEqual(rests: seq<seq<Id>>, v: Id): (r: seq<seq<Id>>)
    ensures |r| == |rests|
    ensures forall i :: 0 <= i < |rests| ==>
                          r[i] == if rests[i] != [] && rests[i][0] == v then rests[i][1..] else rests[i]
  {
    seq(|rests|, i requires 0 <= i < |rests| => if rests[i] != [] && rests[i][0] == v then rests[i][1..] else rests[i])
  }

  lemma DropEqualMembers(rests: seq<seq<Id>>, v: Id)
    requires AllNonDescending(rests)
    requires exists i :: 0 <= i < |rests| && rests[i] != [] && rests[i][0] == v
    ensures Members(rests) == {v} + Members(DropEqual(rests, v))
  {
    var next := DropEqual(rests, v);
    var h :| 0 <= h < |rests| && rests[h] != [] && rests[h][0] == v;
    assert v in rests[h];
    forall x | x in Members(rests) && x != v
      ensures x in Members(next)
    {
      var i :| 0 <= i < |rests| && x in rests[i];
      HeadIsLeast(rests[i]);
      assert x in next[i];
    }
    forall x | x in Members(next)
      ensures x in Members(rests)
    {
      var i :| 0 <= i < |next| && x in next[i];
      assert x in rests[i];
    }
  }

  lemma DropEqualKeeps(all: seq<seq<Id>>, out: seq<Id>, rests: seq<seq<Id>>, v: Id)
    requires Merged(all, out, rests)
    requires exists i :: 0 <= i < |rests| && rests[i] != [] && rests[i][0] == v
    requires forall i :: 0 <= i < |rests| && rests[i] != [] ==> v <= rests[i][0]
    ensures Merged(all, out + (if v == EMPTY then [] else [v]), DropEqual(rests, v))
  {
    var next := DropEqual(rests, v);
    forall i | 0 <= i < |rests|
      ensures NonDescending(next[i]) && (Ascending(rests[i]) ==> Ascending(next[i]))
      ensures forall x :: x in rests[i] ==> v <= x
      ensures forall x :: x in next[i] && Ascending(rests[i]) ==> v < x
    {
      if rests[i] != [] {
        HeadIsLeast(rests[i]);
      }
    }
    DropEqualMembers(rests, v);
    MergeLeast(all, out, rests, next, v);
  }

  predicate AllShow(ss: seq<Stream>) {
    forall i :: 0 <= i < |ss| ==> ss[i].HasHead()
  }

  function Heads(ss: seq<Stream>): (r: seq<Id>)
    requires AllShow(ss)
    ensures |r| == |ss| && forall i :: 0 <= i < |ss| ==> r[i] == ss[i].buffer.items[0] == Rests(ss)[i][0]
  {
    seq(|ss|, i requires 0 <= i < |ss| => ss[i].buffer.items[0])
  }

  /** Discarding an empty buffer is progress and changes nothing else. */
  lemma DiscardKeeps(ss: seq<Stream>, i: nat)
    requires i < |ss| && ss[i].buffer == Buffer([])
    ensures var now := ss[i := ss[i].(buffer := Nil)];
            Rests(now) == Rests(ss) && Errs(now) == Errs(ss) && TotalWork(now) < TotalWork(ss)
  {
    var s := ss[i].(buffer := Nil);
    assert s.Rest() == ss[i].Rest();
    RestsUpdated(ss, i, s);
    WorkUpdated(ss, i, s);
    SameErrs(ss, i, s);
  }

  /** Reads the heads of all streams; gives up when one of them has run through its buffer. */
  method ReadHeads(st: Streams) returns (allHeads: bool, heads: seq<Id>, ghost gap: nat)
    requires forall s :: s in st.streams ==> s.buffer.Buffer?
    modifies st
    ensures allHeads ==> st.streams == old(st.streams) && AllShow(st.streams) && heads == Heads(st.streams)
    ensures !allHeads ==> gap < |old(st.streams)| && old(st.streams)[gap].buffer == Buffer([])
    ensures !allHeads ==> st.streams == old(st.streams)[gap := old(st.streams)[gap].(buffer := Nil)]
  {
    allHeads, heads, gap := true, [], 0;
    for i := 0 to |st.streams|
      invariant st.streams == old(st.streams) && |heads| == i
      invariant forall q :: 0 <= q < i ==> st.streams[q].HasHead() && heads[q] == st.streams[q].buffer.items[0]
    {
      assert st.streams[i] in st.streams;
      var v := st.Head(i);
      if v.Done? {
        return false, heads, i;
      }
      heads := heads + [v.id];
    }
  }

  /** The least of the heads, and which streams show it. */
  method Least(heads: seq<Id>) returns (least: Id, equal: seq<nat>)
    requires heads != []
    ensures least in heads && forall q :: 0 <= q < |heads| ==> least <= heads[q]
    ensures Ascending(equal) && forall p :: 0 <= p < |equal| ==> equal[p] < |heads|
    ensures forall q :: 0 <= q < |heads| ==> (q in equal <==> heads[q] == least)
  {
    least, equal := heads[0], [];
    for idx := 0 to |heads|
      invariant least in heads && forall q :: 0 <= q < idx ==> least <= heads[q]
      invariant idx == 0 ==> least == heads[0]
      invariant Ascending(equal) && forall p :: 0 <= p < |equal| ==> equal[p] < idx
      invariant forall q :: 0 <= q < idx ==> (q in equal <==> heads[q] == least)
    {
      if least == heads[idx] {
        equal := equal + [idx];
      } else if least > heads[idx] {
        least := heads[idx];
        equal := [idx];
      }
    }
  }

  /** Every stream that shows `v` moves past it. */
  function TakeAll(ss: seq<Stream>, v: Id): (r: seq<Stream>)
    ensures |r| == |ss|
    ensures forall i :: 0 <= i < |ss| ==>
                          r[i] == if ss[i].HasHead() && ss[i].buffer.items[0] == v then Taken(ss[i]) else ss[i]
  {
    seq(|ss|, i requires 0 <= i < |ss| => if ss[i].HasHead() && ss[i].buffer.items[0] == v then Taken(ss[i]) else ss[i])
  }

  lemma TakenKeeps(s: Stream)
    requires s.HasHead()
    ensures Taken(s).Rest() == Source(s.Rest().items[1..], s.Rest().err)
    ensures Taken(s).Work() < s.Work() && Taken(s).idx == s.idx && s.Rest().items[0] == s.buffer.items[0]
  {
  }

  lemma {:induction false} TakeAllWorks(ss: seq<Stream>, v: Id)
    ensures TotalWork(TakeAll(ss, v)) <= TotalWork(ss)
    ensures (exists i :: 0 <= i < |ss| && ss[i].HasHead() && ss[i].buffer.items[0] == v) ==>
              TotalWork(TakeAll(ss, v)) < TotalWork(ss)
  {
    if ss != [] {
      assert TakeAll(ss, v)[1..] == TakeAll(ss[1..], v);
      TakeAllWorks(ss[1..], v);
      if exists i :: 0 <= i < |ss| && ss[i].HasHead() && ss[i].buffer.items[0] == v {
        var i :| 0 <= i < |ss| && ss[i].HasHead() && ss[i].buffer.items[0] == v;
        assert i > 0 ==> ss[1..][i - 1].HasHead() && ss[1..][i - 1].buffer.items[0] == v;
      }
    }
  }

  lemma TakeAllKeeps(ss: seq<Stream>, v: Id)
    requires AllShow(ss)
    ensures Rests(TakeAll(ss, v)) == DropEqual(Rests(ss), v)
    ensures Errs(TakeAll(ss, v)) == Errs(ss)
  {
    var now := TakeAll(ss, v);
    forall i | 0 <= i < |ss|
      ensures now[i].Rest() == Source(DropEqual(Rests(ss), v)[i], ss[i].Rest().err)
    {
      TakenKeeps(ss[i]);
    }
    forall e
      ensures e in Errs(now) <==> e in Errs(ss)
    {
      if e in Errs(ss) {
        var i :| 0 <= i < |ss| && ss[i].Rest().err == e;
        assert now[i] in now;
      }
      if e in Errs(now) {
        var i :| 0 <= i < |now| && now[i].Rest().err == e;
        assert ss[i] in ss;
      }
    }
  }

  /** Advances the listed streams, which are all those that show `v`. */
  method Advance(st: Streams, equal: seq<nat>, ghost v: Id) returns (item: Id)
    requires AllShow(st.streams) && equal != [] && Ascending(equal)
    requires forall p :: 0 <= p < |equal| ==> equal[p] < |st.streams|
    requires forall q :: 0 <= q < |st.streams| ==> (q in equal <==> Heads(st.streams)[q] == v)
    modifies st
    ensures item == v && st.streams == TakeAll(old(st.streams), v)
  {
    item := EMPTY;
    ghost var ss := st.streams;
    for p := 0 to |equal|
      invariant p > 0 ==> item == v
      invariant |st.streams| == |ss|
      invariant forall j :: 0 <= j < |ss| ==> st.streams[j] == if j in equal[..p] then Taken(ss[j]) else ss[j]
    {
      assert equal[..p + 1] == equal[..p] + [equal[p]];
      assert equal[p] !in equal[..p] && equal[p] in equal;
      item := st.Next(equal[p]);
    }
    assert equal[..|equal|] == equal;
  }

  /** What the union keeps while it goes on: the merge so far, and which errors may still come up. */
  ghost predicate Uniting(given: seq<seq<Id>>, errs: set<nat>, out: seq<Id>, ss: seq<Stream>) {
    Merged(given, out, Rests(ss)) && Errs(ss) <= errs <= Errs(ss) + {DONE}
  }

  lemma UniteCleaned(given: seq<seq<Id>>, errs: set<nat>, out: seq<Id>, ss: seq<Stream>)
    requires Uniting(given, errs, out, ss) && forall s :: s in ss ==> FetchError(s) == DONE
    ensures Uniting(given, errs, out, Cleaned(ss))
  {
    CleaningKeeps(ss);
    CleaningSelects(ss);
    CleaningKeepsOrder(ss);
  }

  lemma CleaningKeepsOrder(ss: seq<Stream>)
    requires AllNonDescending(Rests(ss)) && forall s :: s in ss ==> FetchError(s) == DONE
    ensures AllNonDescending(Rests(Cleaned(ss))) && (AllAscending(Rests(ss)) ==> AllAscending(Rests(Cleaned(ss))))
  {
    CleaningSelects(ss);
    forall i | 0 <= i < |Cleaned(ss)|
      ensures NonDescending(Rests(Cleaned(ss))[i]) && (AllAscending(Rests(ss)) ==> Ascending(Rests(Cleaned(ss))[i]))
    {
      var s := Cleaned(ss)[i];
      assert s in Cleaned(ss);
      var t :| t in ss && t.Rest() == s.Rest() && t.idx == s.idx;
      var j :| 0 <= j < |ss| && ss[j] == t;
      assert Rests(ss)[j] == Rests(Cleaned(ss))[i];
    }
  }

  lemma UniteLeast(given: seq<seq<Id>>, errs: set<nat>, out: seq<Id>, ss: seq<Stream>, least: Id)
    requires Uniting(given, errs, out, ss) && AllShow(ss)
    requires least in Heads(ss) && forall q :: 0 <= q < |ss| ==> least <= Heads(ss)[q]
    ensures Uniting(given, errs, out + (if least == EMPTY then [] else [least]), TakeAll(ss, least))
  {
    TakeAllKeeps(ss, least);
    UniteRests(given, out, Rests(ss), Heads(ss), least);
  }

  lemma TakingShownWorks(ss: seq<Stream>, v: Id)
    requires AllShow(ss) && v in Heads(ss)
    ensures TotalWork(TakeAll(ss, v)) < TotalWork(ss)
  {
    var q :| 0 <= q < |ss| && Heads(ss)[q] == v;
    assert ss[q].HasHead() && ss[q].buffer.items[0] == v;
    TakeAllWorks(ss, v);
  }

  lemma UniteRests(given: seq<seq<Id>>, out: seq<Id>, rests: seq<seq<Id>>, heads: seq<Id>, least: Id)
    requires Merged(given, out, rests) && |heads| == |rests|
    requires forall i :: 0 <= i < |rests| ==> rests[i] != [] && rests[i][0] == heads[i]
    requires least in heads && forall q :: 0 <= q < |heads| ==> least <= heads[q]
    ensures Merged(given, out + (if least == EMPTY then [] else [least]), DropEqual(rests, least))
  {
    var q :| 0 <= q < |heads| && heads[q] == least;
    assert rests[q] != [] && rests[q][0] == least;
    DropEqualKeeps(given, out, rests, least);
  }

  /** What one round of a set operation comes to. */
  datatype Round = Again | Ended | Failed(err: ErrorCode)

  method UnionRound(st: Streams, o: Out, ghost given: seq<seq<Id>>, ghost errs: set<nat>) returns (r: Round, o': Out)
    requires NoFailure(o.msgs) && Uniting(given, errs, Sent(o), st.streams) && st.streams != []
    modifies st
    ensures NoFailure(o'.msgs)
    ensures r.Failed? ==> r.err in errs
    ensures !r.Failed? ==> Uniting(given, errs, Sent(o'), st.streams)
    ensures r.Ended? ==> st.streams == []
    ensures r.Again? ==> TotalWork(st.streams) < old(TotalWork(st.streams))
  {
    o' := o;
    ghost var before := st.streams;
    var err := st.CleanDone();
    if err != DONE {
      return Failed(err), o;
    }
    CleaningKeeps(before);
    UniteCleaned(given, errs, Sent(o), before);
    if st.streams == [] {
      return Ended, o;
    }
    ghost var cleaned := st.streams;
    var allHeads, heads, gap := ReadHeads(st);
    if !allHeads {
      DiscardKeeps(cleaned, gap);
      return Again, o;
    }
    var least, equal := Least(heads);
    UniteLeast(given, errs, Sent(o), cleaned, least);
    TakingShownWorks(cleaned, least);
    LeastIsShown(heads, least, equal);
    var item := Advance(st, equal, least);
    o' := AddItem(o, item);
    r := Again;
  }

  method FastPathUnion(st: Streams) returns (msgs: seq<Msg>)
    requires AllNonDescending(Rests(st.streams))
    modifies st
    ensures FailureOf(msgs) == DONE ==>
              && Elems(Delivered(msgs)) == old(Members(Rests(st.streams))) - {EMPTY}
              && NonDescending(Delivered(msgs))
              && (old(AllAscending(Rests(st.streams))) ==> Ascending(Delivered(msgs)))
    // an error is reported exactly when a stream has one, and then it is the error of a stream
    ensures if FailureOf(msgs) == DONE then old(Errs(st.streams)) <= {DONE}
            else FailureOf(msgs) in old(Errs(st.streams))
  {
    ghost var given, errs := Rests(st.streams), Errs(st.streams);
    var o := Out([], []);
    while st.streams != []
      invariant NoFailure(o.msgs) && Uniting(given, errs, Sent(o), st.streams)
      decreases TotalWork(st.streams)
    {
      var r;
      r, o := UnionRound(st, o, given, errs);
      if r.Failed? {
        msgs := Fail(o, r.err);
        return;
      }
      if r.Ended? {
        break;
      }
    }
    msgs := Finish(o);
  }

  lemma LeastIsShown(heads: seq<Id>, least: Id, equal: seq<nat>)
    requires least in heads && forall q :: 0 <= q < |heads| ==> (q in equal <==> heads[q] == least)
    ensures equal != []
  {
  }

  // ---------------------------------------------------------------- intersection

  const INVALID_TARGET: ErrorCode := 1

  /** The greatest of the heads, and which streams show it. */
  method Greatest(heads: seq<Id>) returns (greatest: Id, equal: seq<nat>)
    requires heads != []
    ensures greatest in heads && forall q :: 0 <= q < |heads| ==> heads[q] <= greatest
    ensures Ascending(equal) && forall p :: 0 <= p < |equal| ==> equal[p] < |heads|
    ensures forall q :: 0 <= q < |heads| ==> (q in equal <==> heads[q] == greatest)
    ensures if |equal| == |heads| then forall q :: 0 <= q < |heads| ==> heads[q] == greatest
            else exists q :: 0 <= q < |heads| && heads[q] < greatest
  {
    greatest, equal := heads[0], [];
    for idx := 0 to |heads|
      invariant greatest in heads && forall q :: 0 <= q < idx ==> heads[q] <= greatest
      invariant idx == 0 ==> greatest == heads[0]
      invariant Ascending(equal) && forall p :: 0 <= p < |equal| ==> equal[p] < idx
      invariant forall q :: 0 <= q < idx ==> (q in equal <==> heads[q] == greatest)
      invariant |equal| <= idx
      invariant if |equal| == idx then forall q :: 0 <= q < idx ==> heads[q] == greatest
                else exists q :: 0 <= q < idx && heads[q] < greatest
    {
      if greatest == heads[idx] {
        equal := equal + [idx];
      } else if greatest < heads[idx] {
        greatest := heads[idx];
        equal := [idx];
      }
    }
  }

  function SkipAllTo(ss: seq<Stream>, target: Id): (r: seq<Stream>)
    ensures |r| == |ss| && forall i :: 0 <= i < |ss| ==> r[i] == Skipped(ss[i], target)
  {
    seq(|ss|, i requires 0 <= i < |ss| => Skipped(ss[i], target))
  }

  lemma SkippedKeeps(s: Stream, target: Id)
    ensures DropsBelow(s.Rest().items, Skipped(s, target).Rest().items, target)
    ensures Skipped(s, target).Rest().err == s.Rest().err && Skipped(s, target).idx == s.idx
    ensures Skipped(s, target).Work() <= s.Work()
    ensures s.HasHead() && s.buffer.items[0] < target ==> Skipped(s, target).Work() < s.Work()
  {
    if s.buffer.Buffer? {
      var b := s.buffer.items;
      var items := SkipBelow(b, target);
      var tail := if s.closed then [] else Delivered(s.source);
      DropsBelowConcat(b, items, tail, target);
      assert s.Rest().items == b + tail && Skipped(s, target).Rest().items == items + tail;
      assert s.HasHead() && b[0] < target ==> |items| < |b|;
    }
  }

  lemma {:induction false} SkipAllWorks(ss: seq<Stream>, target: Id)
    ensures TotalWork(SkipAllTo(ss, target)) <= TotalWork(ss)
    ensures (exists i :: 0 <= i < |ss| && ss[i].HasHead() && ss[i].buffer.items[0] < target) ==>
              TotalWork(SkipAllTo(ss, target)) < TotalWork(ss)
  {
    if ss != [] {
      SkippedKeeps(ss[0], target);
      assert SkipAllTo(ss, target)[1..] == SkipAllTo(ss[1..], target);
      SkipAllWorks(ss[1..], target);
      if exists i :: 0 <= i < |ss| && ss[i].HasHead() && ss[i].buffer.items[0] < target {
        var i :| 0 <= i < |ss| && ss[i].HasHead() && ss[i].buffer.items[0] < target;
        assert i > 0 ==> ss[1..][i - 1].HasHead() && ss[1..][i - 1].buffer.items[0] < target;
      }
    }
  }

  lemma SkipAllDrops(ss: seq<Stream>, target: Id)
    ensures AllDrop(Rests(ss), Rests(SkipAllTo(ss, target)), target)
    ensures forall i :: 0 <= i < |ss| ==> SkipAllTo(ss, target)[i].Rest().err == ss[i].Rest().err
  {
    var now := SkipAllTo(ss, target);
    forall i | 0 <= i < |ss|
      ensures DropsBelow(Rests(ss)[i], Rests(now)[i], target) && now[i].Rest().err == ss[i].Rest().err
    {
      SkippedKeeps(ss[i], target);
    }
  }

  lemma ShownHead(ss: seq<Stream>, v: Id) returns (h: nat)
    requires AllShow(ss) && v in Heads(ss)
    ensures h < |ss| && Rests(ss)[h] != [] && Rests(ss)[h][0] == v && v in Members(Rests(ss))
  {
    h :| 0 <= h < |ss| && Heads(ss)[h] == v;
    assert v in Rests(ss)[h];
  }

  lemma SharedHeads(ss: seq<Stream>, v: Id)
    requires AllShow(ss) && forall q :: 0 <= q < |ss| ==> Heads(ss)[q] == v
    ensures NoneEmpty(Rests(ss)) && forall i :: 0 <= i < |ss| ==> Rests(ss)[i][0] == v
    ensures Rests(TakeAll(ss, v)) == Tails(Rests(ss))
    ensures forall i :: 0 <= i < |ss| ==> TakeAll(ss, v)[i].Rest().err == ss[i].Rest().err
  {
    TakeAllKeeps(ss, v);
    forall i | 0 <= i < |ss|
      ensures Rests(ss)[i] != [] && Rests(ss)[i][0] == v
    {
      assert Heads(ss)[i] == v;
    }
    assert DropEqual(Rests(ss), v) == Tails(Rests(ss));
  }

  /** A stream that is removed had nothing left. */
  lemma RemovedWasEmpty(ss: seq<Stream>) returns (k: nat)
    requires (forall s :: s in ss ==> FetchError(s) == DONE) && |Cleaned(ss)| < |ss|
    ensures k < |ss| && ss[k].Rest() == Source([], DONE)
  {
    if forall i :: 0 <= i < |ss| ==> !FetchedAll(ss)[i].IsDone() {
      NothingPruned(FetchedAll(ss));
      assert false;
    }
    k :| 0 <= k < |ss| && FetchedAll(ss)[k].IsDone();
    assert ss[k] in ss;
    FetchKeeps(ss[k]);
  }

  lemma {:induction false} NothingPruned(ss: seq<Stream>)
    requires forall i :: 0 <= i < |ss| ==> !ss[i].IsDone()
    ensures Prune(ss) == ss
  {
    if ss != [] {
      NothingPruned(ss[1..]);
    }
  }

  /** Skips every stream up to `target`; an id that is not a valid object stops everything. */
  method SkipStreams(st: Streams, target: Id, valid: Id -> bool) returns (ok: bool)
    requires st.streams != []
    modifies st
    ensures ok <==> valid(target)
    ensures ok ==> st.streams == SkipAllTo(old(st.streams), target)
  {
    ghost var ss := st.streams;
    ok := true;
    for i := 0 to |st.streams|
      invariant |st.streams| == |ss| && ok && (i > 0 ==> valid(target))
      invariant forall j :: 0 <= j < |ss| ==> st.streams[j] == if j < i then Skipped(ss[j], target) else ss[j]
    {
      ok := st.SkipToTargetObject(i, target, valid);
      if !ok {
        return;
      }
    }
  }

  /** Each stream ends as the source it came from. */
  ghost predicate SameEnds(given: seq<Source>, ss: seq<Stream>) {
    |ss| == |given| && forall i :: 0 <= i < |ss| ==> ss[i].Rest().err == given[i].err
  }

  ghost predicate EndOf(given: seq<Source>, err: nat) {
    exists i :: 0 <= i < |given| && given[i].err == err
  }

  lemma EndsOf(given: seq<Source>, ss: seq<Stream>, err: nat)
    requires SameEnds(given, ss) && err in Errs(ss)
    ensures EndOf(given, err)
  {
    var s :| s in ss && s.Rest().err == err;
    var i :| 0 <= i < |ss| && ss[i] == s;
    assert given[i].err == err;
  }

  /** What the intersection keeps while it goes on. */
  ghost predicate Intersecting(given: seq<Source>, out: seq<Id>, ss: seq<Stream>) {
    && SameEnds(given, ss) && AllNonDescending(Items(given)) && Foreseen(Items(given), out, Rests(ss))
    && Members(Rests(ss)) <= Members(Items(given))
  }

  lemma IntersectCleaned(given: seq<Source>, out: seq<Id>, ss: seq<Stream>)
    requires Intersecting(given, out, ss) && (forall s :: s in ss ==> FetchError(s) == DONE)
    requires |Cleaned(ss)| == |ss|
    ensures Intersecting(given, out, Cleaned(ss))
  {
    CleaningKeeps(ss);
    forall i | 0 <= i < |ss|
      ensures Cleaned(ss)[i].Rest().err == given[i].err
    {
      assert ss[i] in ss;
      FetchKeeps(ss[i]);
    }
  }

  lemma IntersectShared(given: seq<Source>, out: seq<Id>, ss: seq<Stream>, v: Id)
    requires Intersecting(given, out, ss) && ss != [] && AllShow(ss)
    requires forall q :: 0 <= q < |ss| ==> Heads(ss)[q] == v
    ensures Intersecting(given, out + (if v == EMPTY then [] else [v]), TakeAll(ss, v))
    ensures TotalWork(TakeAll(ss, v)) < TotalWork(ss)
  {
    SharedHeads(ss, v);
    ForeseeShared(Items(given), out, Rests(ss), v);
    TailsShrink(Rests(ss));
    assert Heads(ss)[0] in Heads(ss);
    TakingShownWorks(ss, v);
  }

  lemma TailsShrink(rests: seq<seq<Id>>)
    ensures Members(Tails(rests)) <= Members(rests)
  {
    forall x | x in Members(Tails(rests))
      ensures x in Members(rests)
    {
      var i :| 0 <= i < |rests| && x in Tails(rests)[i];
      assert x in rests[i];
    }
  }

  lemma DroppedMembers(rests: seq<seq<Id>>, now: seq<seq<Id>>, target: Id)
    requires AllDrop(rests, now, target)
    ensures Members(now) <= Members(rests)
  {
    forall v | v in Members(now)
      ensures v in Members(rests)
    {
      var i :| 0 <= i < |now| && v in now[i];
      assert DropsBelow(rests[i], now[i], target) && v in rests[i];
    }
  }

  lemma SkipFacts(given: seq<Source>, ss: seq<Stream>, target: Id) returns (h: nat)
    requires SameEnds(given, ss) && AllShow(ss) && target in Heads(ss)
    ensures h < |ss| && Rests(ss)[h] != [] && Rests(ss)[h][0] == target && target in Members(Rests(ss))
    ensures AllDrop(Rests(ss), Rests(SkipAllTo(ss, target)), target) && SameEnds(given, SkipAllTo(ss, target))
    ensures Members(Rests(SkipAllTo(ss, target))) <= Members(Rests(ss))
  {
    h := ShownHead(ss, target);
    SkipAllDrops(ss, target);
    DroppedMembers(Rests(ss), Rests(SkipAllTo(ss, target)), target);
  }

  lemma IntersectSkip(given: seq<Source>, out: seq<Id>, ss: seq<Stream>, target: Id)
    requires Intersecting(given, out, ss) && AllShow(ss) && target in Heads(ss)
    ensures Intersecting(given, out, SkipAllTo(ss, target))
    ensures target in Members(Items(given))
  {
    var h := SkipFacts(given, ss, target);
    DropAllForeseen(Items(given), out, Rests(ss), Rests(SkipAllTo(ss, target)), h, target);
  }

  lemma DropAllForeseen(given: seq<seq<Id>>, out: seq<Id>, left: seq<seq<Id>>, now: seq<seq<Id>>, h: nat, target: Id)
    requires Foreseen(given, out, left) && h < |left| && left[h] != [] && left[h][0] == target
    requires AllDrop(left, now, target)
    ensures Foreseen(given, out, now)
  {
    ForeseeDrop(given, out, left, now, h);
  }

  /** The intersection of what the streams would have delivered in full. */
  ghost predicate SettledOn(given: seq<Source>, out: seq<Id>) {
    forall more :: Missed(given, more) ==> Elems(out) == Common(Extended(Items(given), more)) - {EMPTY}
  }

  /** The end of the intersection: what was put out is what the streams share, also had all been read in full. */
  ghost predicate Concluded(given: seq<Source>, out: seq<Id>) {
    && SettledOn(given, out) && Elems(out) == Common(Items(given)) - {EMPTY} && NonDescending(out)
    && (AllAscending(Items(given)) ==> Ascending(out))
  }

  lemma IntersectEnds(given: seq<Source>, out: seq<Id>, ss: seq<Stream>, k: nat)
    requires Intersecting(given, out, ss) && k < |ss| && ss[k].Rest() == Source([], DONE)
    ensures Concluded(given, out)
  {
    assert Rests(ss)[k] == [];
    IntersectionEnds(given, out, Rests(ss), k);
    SettlesOn(given, out, k);
    ForeseenNow(Items(given), out, Rests(ss));
    EmptyStreamEndsIntersection(Rests(ss), k);
  }

  lemma SettlesOn(given: seq<Source>, out: seq<Id>, k: nat)
    requires k < |given| && given[k].err == DONE && Settles(given, k, out)
    ensures SettledOn(given, out)
  {
  }

  lemma SkippingWorks(ss: seq<Stream>, target: Id)
    requires AllShow(ss) && exists q :: 0 <= q < |ss| && Heads(ss)[q] < target
    ensures TotalWork(SkipAllTo(ss, target)) < TotalWork(ss)
  {
    var q :| 0 <= q < |ss| && Heads(ss)[q] < target;
    assert ss[q].HasHead() && ss[q].buffer.items[0] < target;
    SkipAllWorks(ss, target);
  }

  method IntersectionRound(st: Streams, valid: Id -> bool, o: Out, ghost given: seq<Source>)
    returns (r: Round, o': Out)
    requires st.streams != [] && NoFailure(o.msgs) && Intersecting(given, Sent(o), st.streams)
    modifies st
    ensures NoFailure(o'.msgs)
    ensures r.Failed? ==>
              EndOf(given, r.err) || (r.err == INVALID_TARGET && exists v :: v in Members(Items(given)) && !valid(v))
    ensures r.Again? ==> Intersecting(given, Sent(o'), st.streams) && |st.streams| == |old(st.streams)|
    ensures r.Again? ==> TotalWork(st.streams) < old(TotalWork(st.streams))
    ensures r.Ended? ==> o' == o && Concluded(given, Sent(o))
  {
    o' := o;
    ghost var before := st.streams;
    var total := |st.streams|;
    var err := st.CleanDone();
    if err != DONE {
      EndsOf(given, before, err);
      return Failed(err), o;
    }
    CleaningKeeps(before);
    if |st.streams| != total {
      ghost var k := RemovedWasEmpty(before);
      IntersectEnds(given, Sent(o), before, k);
      return Ended, o;
    }
    IntersectCleaned(given, Sent(o), before);
    ghost var cleaned := st.streams;
    var allHeads, heads, gap := ReadHeads(st);
    if !allHeads {
      DiscardKeeps(cleaned, gap);
      return Again, o;
    }
    r, o' := IntersectHeads(st, valid, o, heads, given);
  }

  /** All streams show a head: a head they share is put out, otherwise the lower ones catch up. */
  method IntersectHeads(st: Streams, valid: Id -> bool, o: Out, heads: seq<Id>, ghost given: seq<Source>)
    returns (r: Round, o': Out)
    requires st.streams != [] && NoFailure(o.msgs) && Intersecting(given, Sent(o), st.streams)
    requires AllShow(st.streams) && heads == Heads(st.streams)
    modifies st
    ensures NoFailure(o'.msgs) && !r.Ended?
    ensures r.Failed? ==> r.err == INVALID_TARGET && exists v :: v in Members(Items(given)) && !valid(v)
    ensures r.Again? ==> Intersecting(given, Sent(o'), st.streams) && |st.streams| == |old(st.streams)|
    ensures r.Again? ==> TotalWork(st.streams) < old(TotalWork(st.streams))
  {
    o' := o;
    ghost var ss := st.streams;
    var greatest, equal := Greatest(heads);
    if |equal| == |st.streams| {
      IntersectShared(given, Sent(o), ss, greatest);
      var item := Advance(st, equal, greatest);
      o' := AddItem(o, item);
      return Again, o';
    }
    IntersectSkip(given, Sent(o), ss, greatest);
    SkippingWorks(ss, greatest);
    var ok := SkipStreams(st, greatest, valid);
    r := if ok then Again else Failed(INVALID_TARGET);
  }

  lemma IntersectStarts(ss: seq<Stream>, out: seq<Id>)
    requires AllNonDescending(Rests(ss)) && out == []
    ensures Intersecting(Sources(ss), out, ss) && Items(Sources(ss)) == Rests(ss)
  {
    assert Items(Sources(ss)) == Rests(ss);
    ForeseeStart(Rests(ss));
  }

  method FastPathIntersection(st: Streams, valid: Id -> bool) returns (msgs: seq<Msg>)
    requires st.streams != [] && AllNonDescending(Rests(st.streams))
    modifies st
    ensures FailureOf(msgs) == DONE ==>
              && Elems(Delivered(msgs)) == old(Common(Rests(st.streams))) - {EMPTY}
              && NonDescending(Delivered(msgs))
              && (old(AllAscending(Rests(st.streams))) ==> Ascending(Delivered(msgs)))
    // without an error, no failed read can have made a difference
    ensures FailureOf(msgs) == DONE ==> SettledOn(old(Sources(st.streams)), Delivered(msgs))
    ensures FailureOf(msgs) != DONE ==>
              || EndOf(old(Sources(st.streams)), FailureOf(msgs))
              || (FailureOf(msgs) == INVALID_TARGET && exists v :: v in old(Members(Rests(st.streams))) && !valid(v))
  {
    ghost var given := Sources(st.streams);
    var o := Out([], []);
    IntersectStarts(st.streams, Sent(o));
    while true
      invariant st.streams != [] && NoFailure(o.msgs) && Intersecting(given, Sent(o), st.streams)
      decreases TotalWork(st.streams)
    {
      var r;
      r, o := IntersectionRound(st, valid, o, given);
      if r.Failed? {
        msgs := Fail(o, r.err);
        return;
      }
      if r.Ended? {
        msgs := Finish(o);
        return;
      }
    }
  }

  // ---------------------------------------------------------------- difference

  /** The base has index 0 and the subtracted stream index 1; either may have left the list. */
  predicate Pair(ss: seq<Stream>) {
    && |ss| <= 2
    && (|ss| == 2 ==> ss[0].idx == 0 && ss[1].idx == 1)
    && (|ss| == 1 ==> ss[0].idx <= 1)
  }

  /** What the base has still to give; a stream that has left the list has nothing. */
  function BaseOf(ss: seq<Stream>): Source
    requires Pair(ss)
  {
    if |ss| >= 1 && ss[0].idx == 0 then ss[0].Rest() else Source([], DONE)
  }

  function SubOf(ss: seq<Stream>): Source
    requires Pair(ss)
  {
    if |ss| == 2 then ss[1].Rest() else if |ss| == 1 && ss[0].idx == 1 then ss[0].Rest() else Source([], DONE)
  }

  lemma PruneOne(s: Stream)
    ensures Prune([s]) == if s.IsDone() then [] else [s]
  {
  }

  lemma PruneTwo(s: Stream, t: Stream)
    ensures Prune([s, t]) == (if s.IsDone() then [] else [s]) + (if t.IsDone() then [] else [t])
  {
    assert [s, t][1..] == [t];
    PruneOne(t);
  }

  lemma CleaningKeepsPair(ss: seq<Stream>)
    requires Pair(ss) && forall s :: s in ss ==> FetchError(s) == DONE
    ensures Pair(Cleaned(ss)) && BaseOf(Cleaned(ss)) == BaseOf(ss) && SubOf(Cleaned(ss)) == SubOf(ss)
  {
    var f := FetchedAll(ss);
    if |ss| >= 1 {
      assert ss[0] in ss;
      FetchKeeps(ss[0]);
    }
    if |ss| == 1 {
      assert f == [Fetched(ss[0])];
      PruneOne(Fetched(ss[0]));
    } else if |ss| == 2 {
      assert ss[1] in ss;
      FetchKeeps(ss[1]);
      assert f == [Fetched(ss[0]), Fetched(ss[1])];
      PruneTwo(Fetched(ss[0]), Fetched(ss[1]));
    }
  }

  /** What the difference keeps while it goes on. The base does not hold the empty id. */
  ghost predicate Differing(base: Source, sub: Source, out: seq<Id>, ss: seq<Stream>) {
    && Pair(ss) && BaseOf(ss).err == base.err && SubOf(ss).err == sub.err && EMPTY !in Elems(BaseOf(ss).items)
    && ForeseenBoth(base.items, sub.items, out, BaseOf(ss).items, SubOf(ss).items)
  }

  /** What it keeps once nothing is subtracted any more. */
  ghost predicate Draining(base: Source, sub: Source, out: seq<Id>, ss: seq<Stream>) {
    && Pair(ss) && BaseOf(ss).err == base.err && SubOf(ss) == Source([], DONE) && sub.err == DONE
    && EMPTY !in Elems(BaseOf(ss).items) && ForeseenBase(base.items, sub.items, out, BaseOf(ss).items)
  }

  lemma EndOfPair(base: Source, sub: Source, ss: seq<Stream>, err: nat)
    requires Pair(ss) && BaseOf(ss).err == base.err && SubOf(ss).err == sub.err && err in Errs(ss)
    ensures err == base.err || err == sub.err
  {
    var s :| s in ss && s.Rest().err == err;
    var i :| 0 <= i < |ss| && ss[i] == s;
  }

  /** Once nothing is subtracted any more, a whole run of the base can be put out. */
  lemma {:induction false} DrainRun(base0: seq<Id>, sub0: seq<Id>, out: seq<Id>, run: seq<Id>, rest: seq<Id>)
    requires ForeseenBase(base0, sub0, out, run + rest) && EMPTY !in run
    ensures ForeseenBase(base0, sub0, out + run, rest)
    decreases |run|
  {
    if run == [] {
      assert run + rest == rest && out + run == out;
    } else {
      ForeseeDrain(base0, sub0, out, run + rest);
      assert (run + rest)[0] == run[0] && (run + rest)[1..] == run[1..] + rest;
      DrainRun(base0, sub0, out + [run[0]], run[1..], rest);
      assert out + run == out + [run[0]] + run[1..];
    }
  }

  lemma PairRests(ss: seq<Stream>)
    requires Pair(ss) && |ss| == 2
    ensures BaseOf(ss) == Sources(ss)[0] && SubOf(ss) == Sources(ss)[1]
  {
  }

  /** Both heads are equal: both streams move on. */
  lemma DifferEqual(base: Source, sub: Source, out: seq<Id>, ss: seq<Stream>)
    requires Differing(base, sub, out, ss) && |ss| == 2 && AllShow(ss) && Heads(ss)[0] == Heads(ss)[1]
    ensures var now := ss[0 := Taken(ss[0])][1 := Taken(ss[1])];
            && Differing(base, sub, out, now) && TotalWork(now) < TotalWork(ss)
            && Elems(BaseOf(now).items) <= Elems(BaseOf(ss).items)
  {
    var half := ss[0 := Taken(ss[0])];
    TakenKeeps(ss[0]);
    TakenKeeps(ss[1]);
    WorkUpdated(ss, 0, Taken(ss[0]));
    WorkUpdated(half, 1, Taken(ss[1]));
    ForeseeCancel(base.items, sub.items, out, BaseOf(ss).items, SubOf(ss).items);
  }

  /** The base head is lower: it is put out. */
  lemma DifferBase(base: Source, sub: Source, out: seq<Id>, ss: seq<Stream>)
    requires Differing(base, sub, out, ss) && |ss| == 2 && AllShow(ss) && Heads(ss)[0] < Heads(ss)[1]
    ensures var now := ss[0 := Taken(ss[0])];
            && Differing(base, sub, out + (if Heads(ss)[0] == EMPTY then [] else [Heads(ss)[0]]), now)
            && Elems(BaseOf(now).items) <= Elems(BaseOf(ss).items)
  {
    TakenPair(ss);
    ForeseeKeep(base.items, sub.items, out, BaseOf(ss).items, SubOf(ss).items);
  }

  lemma TakenPair(ss: seq<Stream>)
    requires Pair(ss) && |ss| == 2 && AllShow(ss)
    ensures var now := ss[0 := Taken(ss[0])];
            && Pair(now) && TotalWork(now) < TotalWork(ss) && SubOf(now) == SubOf(ss)
            && BaseOf(ss).items != [] && BaseOf(ss).items[0] == Heads(ss)[0]
            && BaseOf(now) == Source(BaseOf(ss).items[1..], BaseOf(ss).err)
            && SubOf(ss).items != [] && SubOf(ss).items[0] == Heads(ss)[1]
  {
    TakenKeeps(ss[0]);
    WorkUpdated(ss, 0, Taken(ss[0]));
  }

  /** The other head is lower: that stream catches up. */
  lemma DifferSkip(base: Source, sub: Source, out: seq<Id>, ss: seq<Stream>)
    requires Differing(base, sub, out, ss) && |ss| == 2 && AllShow(ss) && Heads(ss)[1] < Heads(ss)[0]
    ensures var now := ss[1 := Skipped(ss[1], Heads(ss)[0])];
            Differing(base, sub, out, now) && TotalWork(now) < TotalWork(ss) && BaseOf(now) == BaseOf(ss)
    ensures Heads(ss)[0] in BaseOf(ss).items
  {
    SkippedPair(ss);
    var now := ss[1 := Skipped(ss[1], Heads(ss)[0])];
    ForeseeSkip(base.items, sub.items, out, BaseOf(ss).items, SubOf(ss).items, SubOf(now).items);
    assert BaseOf(ss).items[0] in BaseOf(ss).items;
  }

  lemma SkippedPair(ss: seq<Stream>)
    requires Pair(ss) && |ss| == 2 && AllShow(ss) && Heads(ss)[1] < Heads(ss)[0]
    ensures var now := ss[1 := Skipped(ss[1], Heads(ss)[0])];
            && Pair(now) && TotalWork(now) < TotalWork(ss) && SubOf(now).err == SubOf(ss).err
            && BaseOf(ss).items != [] && BaseOf(ss).items[0] == Heads(ss)[0] && BaseOf(now) == BaseOf(ss)
            && DropsBelow(SubOf(ss).items, SubOf(now).items, Heads(ss)[0])
  {
    var s := Skipped(ss[1], Heads(ss)[0]);
    SkippedKeeps(ss[1], Heads(ss)[0]);
    WorkUpdated(ss, 1, s);
  }

  lemma DifferDiscard(base: Source, sub: Source, out: seq<Id>, ss: seq<Stream>, gap: nat)
    requires Differing(base, sub, out, ss) && |ss| == 2 && gap < 2 && ss[gap].buffer == Buffer([])
    ensures var now := ss[gap := ss[gap].(buffer := Nil)];
            Differing(base, sub, out, now) && TotalWork(now) < TotalWork(ss) && BaseOf(now) == BaseOf(ss)
  {
    DiscardPair(ss, gap);
  }

  lemma DiscardPair(ss: seq<Stream>, gap: nat)
    requires Pair(ss) && |ss| == 2 && gap < 2 && ss[gap].buffer == Buffer([])
    ensures var now := ss[gap := ss[gap].(buffer := Nil)];
            Pair(now) && BaseOf(now) == BaseOf(ss) && SubOf(now) == SubOf(ss) && TotalWork(now) < TotalWork(ss)
  {
    var s := ss[gap].(buffer := Nil);
    assert s.Rest() == ss[gap].Rest() by {
      assert [] + Delivered(s.source) == Delivered(s.source);
    }
    WorkUpdated(ss, gap, s);
  }

  /** The difference stops on a stream's own error, or on an id of the base that is no valid object. */
  ghost predicate MayFail(err: nat, base: Source, sub: Source, valid: Id -> bool) {
    err == base.err || err == sub.err || (err == INVALID_TARGET && exists v :: v in base.items && !valid(v))
  }

  method DifferenceRound(st: Streams, valid: Id -> bool, o: Out, ghost base0: Source, ghost sub0: Source)
    returns (r: Round, o': Out)
    requires |st.streams| == 2 && NoFailure(o.msgs) && Differing(base0, sub0, Sent(o), st.streams)
    requires Elems(BaseOf(st.streams).items) <= Elems(base0.items)
    modifies st
    ensures NoFailure(o'.msgs)
    ensures r.Failed? ==> MayFail(r.err, base0, sub0, valid)
    ensures !r.Failed? ==> Differing(base0, sub0, Sent(o'), st.streams)
    ensures !r.Failed? ==> Elems(BaseOf(st.streams).items) <= Elems(base0.items)
    ensures r.Again? ==> |st.streams| == 2 && TotalWork(st.streams) < old(TotalWork(st.streams))
    ensures r.Ended? ==> |st.streams| < 2
  {
    o' := o;
    ghost var before := st.streams;
    var err := st.CleanDone();
    if err != DONE {
      EndOfPair(base0, sub0, before, err);
      return Failed(err), o;
    }
    CleaningKeeps(before);
    CleaningKeepsPair(before);
    if |st.streams| != 2 {
      return Ended, o;
    }
    ghost var cleaned := st.streams;
    var allHeads, heads, gap := ReadHeads(st);
    if !allHeads {
      DifferDiscard(base0, sub0, Sent(o), cleaned, gap);
      return Again, o;
    }
    var base, diff := heads[0], heads[1];
    if base == diff {
      DifferEqual(base0, sub0, Sent(o), cleaned);
      var _ := st.Next(0);
      var _ := st.Next(1);
      r := Again;
    } else if diff > base {
      DifferBase(base0, sub0, Sent(o), cleaned);
      TakenPair(cleaned);
      var item := st.Next(0);
      o' := AddItem(o, item);
      r := Again;
    } else {
      DifferSkip(base0, sub0, Sent(o), cleaned);
      assert base in Elems(BaseOf(cleaned).items);
      var ok := st.SkipToTargetObject(1, base, valid);
      r := if ok then Again else Failed(INVALID_TARGET);
    }
  }

  lemma DrainedKeeps(base: Source, sub: Source, out: seq<Id>, ss: seq<Stream>)
    requires Draining(base, sub, out, ss) && |ss| == 1 && ss[0].idx == 0 && ss[0].buffer.Buffer?
    ensures var drained := ss[0 := ss[0].(buffer := Nil)];
            Draining(base, sub, out + ss[0].buffer.items, drained) && TotalWork(drained) < TotalWork(ss)
  {
    var drained := ss[0 := ss[0].(buffer := Nil)];
    var run := ss[0].buffer.items;
    assert BaseOf(ss).items == run + BaseOf(drained).items && BaseOf(drained).err == BaseOf(ss).err;
    assert EMPTY !in run by {
      assert forall v :: v in run ==> v in BaseOf(ss).items;
    }
    assert forall v :: v in BaseOf(drained).items ==> v in BaseOf(ss).items;
    DrainRun(base.items, sub.items, out, run, BaseOf(drained).items);
    WorkUpdated(ss, 0, drained[0]);
  }

  /** Puts out what is left of the base, a buffer at a time. */
  method DrainBaseStream(st: Streams, o: Out, ghost base: Source, ghost sub: Source) returns (err: nat, o': Out)
    requires |st.streams| == 1 && st.streams[0].idx == 0 && st.streams[0].buffer.Buffer?
    requires NoFailure(o.msgs) && Draining(base, sub, Sent(o), st.streams)
    modifies st
    ensures NoFailure(o'.msgs) && (err != DONE ==> err == base.err)
    ensures err == DONE ==> st.streams == [] && Draining(base, sub, Sent(o'), [])
  {
    o' := o;
    err := DONE;
    while |st.streams| == 1
      invariant |st.streams| <= 1 && NoFailure(o'.msgs) && Draining(base, sub, Sent(o'), st.streams)
      invariant |st.streams| == 1 ==> st.streams[0].idx == 0 && st.streams[0].buffer.Buffer?
      decreases TotalWork(st.streams)
    {
      err, o' := DrainRound(st, o', base, sub);
      if err != DONE {
        return;
      }
    }
    err := DONE;
  }

  method AddRun(o: Out, items: seq<Id>) returns (o': Out)
    requires NoFailure(o.msgs)
    ensures NoFailure(o'.msgs) && Sent(o') == Sent(o) + items
  {
    assert Delivered(o.msgs) + (o.batch + items) == Sent(o) + items;
    o' := SendFull(o.(batch := o.batch + items));
  }

  method DrainRound(st: Streams, o: Out, ghost base: Source, ghost sub: Source) returns (err: nat, o': Out)
    requires |st.streams| == 1 && st.streams[0].idx == 0 && st.streams[0].buffer.Buffer?
    requires NoFailure(o.msgs) && Draining(base, sub, Sent(o), st.streams)
    modifies st
    ensures NoFailure(o'.msgs) && (err != DONE ==> err == base.err)
    ensures err == DONE ==> |st.streams| <= 1 && Draining(base, sub, Sent(o'), st.streams)
    ensures err == DONE && |st.streams| == 1 ==> st.streams[0].idx == 0 && st.streams[0].buffer.Buffer?
    ensures err == DONE ==> TotalWork(st.streams) < old(TotalWork(st.streams))
  {
    DrainedKeeps(base, sub, Sent(o), st.streams);
    var items := st.Drain(0);
    ghost var drained := st.streams;
    o' := AddRun(o, items);
    err := st.CleanDone();
    if err != DONE {
      return;
    }
    CleaningKeeps(drained);
    CleaningKeepsPair(drained);
    OnlyBaseStays(drained);
  }

  lemma OnlyBaseStays(ss: seq<Stream>)
    requires |ss| == 1 && ss[0].idx == 0 && forall s :: s in ss ==> FetchError(s) == DONE
    ensures |Cleaned(ss)| == 1 ==> Cleaned(ss)[0].idx == 0 && Cleaned(ss)[0].buffer.Buffer?
  {
    assert ss[0] in ss;
    FetchKeeps(ss[0]);
    assert FetchedAll(ss) == [Fetched(ss[0])];
    PruneOne(Fetched(ss[0]));
  }

  /** Runs while both streams are there. */
  method DifferenceBoth(st: Streams, valid: Id -> bool, ghost base: Source, ghost sub: Source)
    returns (err: nat, o: Out)
    requires Differing(base, sub, [], st.streams) && Elems(BaseOf(st.streams).items) <= Elems(base.items)
    modifies st
    ensures NoFailure(o.msgs)
    ensures err == DONE ==> |st.streams| < 2 && Differing(base, sub, Sent(o), st.streams)
    ensures err != DONE ==> MayFail(err, base, sub, valid)
  {
    o := Out([], []);
    assert Sent(o) == [];
    while |st.streams| == 2
      invariant NoFailure(o.msgs) && Differing(base, sub, Sent(o), st.streams)
      invariant Elems(BaseOf(st.streams).items) <= Elems(base.items)
      decreases TotalWork(st.streams)
    {
      var r;
      r, o := DifferenceRound(st, valid, o, base, sub);
      if r.Failed? {
        return r.err, o;
      }
      if r.Ended? {
        break;
      }
    }
    err := DONE;
  }

  /** The base was read without an error, and whatever the other stream has missed, `out` is the difference. */
  ghost predicate SubtractedAll(base: Source, sub: Source, out: seq<Id>) {
    && base.err == DONE && (NonDescending(base.items) && NonDescending(sub.items) ==> NonDescending(out))
    && forall more :: Missed([base, sub], more) ==> multiset(out) == FullDifference([base, sub], more)[EMPTY := 0]
  }

  lemma SubtractedIfUsed(base: Source, sub: Source, out: seq<Id>)
    requires base.err == DONE && forall more :: Missed([base, sub], more) ==> BaseUsed([base, sub], out, more)
    ensures SubtractedAll(base, sub, out)
  {
    var iters := [base, sub];
    UsedIsAll(iters, out);
    if NonDescending(base.items) && NonDescending(sub.items) {
      assert Items(iters)[0] == base.items && Items(iters)[1] == sub.items;
      UsedIsProgress(iters, out);
      DifferenceSoFar(iters, out);
    }
  }

  /** When one of the streams is gone: the rest of the base, if it is the other one, is in the difference. */
  method DifferenceTail(st: Streams, o: Out, ghost base: Source, ghost sub: Source) returns (err: nat, o': Out)
    requires |st.streams| < 2 && NoFailure(o.msgs) && Differing(base, sub, Sent(o), st.streams)
    modifies st
    ensures NoFailure(o'.msgs) && (err != DONE ==> err == base.err || err == sub.err)
    ensures err == DONE ==> SubtractedAll(base, sub, Sent(o'))
  {
    o' := o;
    ghost var before := st.streams;
    err := st.CleanDone();
    if err != DONE {
      EndOfPair(base, sub, before, err);
      return;
    }
    CleaningKeeps(before);
    CleaningKeepsPair(before);
    if |st.streams| == 1 && st.streams[0].idx == 0 {
      assert st.streams[0] in st.streams;
      DrainStarts(base.items, sub.items, Sent(o), BaseOf(st.streams).items);
      err, o' := DrainBaseStream(st, o, base, sub);
      if err == DONE {
        Drained([base, sub], Sent(o'));
        SubtractedIfUsed(base, sub, Sent(o'));
      }
    } else {
      UsedUp([base, sub], Sent(o), SubOf(st.streams).items);
      SubtractedIfUsed(base, sub, Sent(o));
    }
  }

  /** As sets, the result is the difference exactly when all repetitions cancel, as they do without repetitions. */
  ghost predicate DifferenceIs(out: seq<Id>, base: seq<Id>, sub: seq<Id>) {
    && (Elems(out) == Elems(base) - Elems(sub) <==> CancelsAll(base, sub))
    && (Ascending(base) ==> Ascending(out) && CancelsAll(base, sub))
  }

  lemma AsSets(base: seq<Id>, sub: seq<Id>, out: seq<Id>)
    requires multiset(out) == Remainder(base, sub) && NonDescending(out) && EMPTY !in base
    ensures DifferenceIs(out, base, sub)
  {
    assert EMPTY !in multiset(base);
    assert Remainder(base, sub)[EMPTY := 0] == Remainder(base, sub);
    DifferenceExactIff(base, sub, out);
    if Ascending(base) {
      PartIsAscending(base, out);
      AscendingCancels(base, sub);
    }
    assert Elems(base) - Elems(sub) - {EMPTY} == Elems(base) - Elems(sub);
  }

  lemma SubtractedNow(base: Source, sub: Source, out: seq<Id>)
    requires SubtractedAll(base, sub, out) && NonDescending(base.items) && NonDescending(sub.items)
    requires EMPTY !in base.items
    ensures multiset(out) == Remainder(base.items, sub.items)
  {
    var iters := [base, sub];
    assert Items(iters)[0] == base.items && Items(iters)[1] == sub.items;
    NothingMissed(iters);
    assert EMPTY !in multiset(base.items);
    assert Remainder(base.items, sub.items)[EMPTY := 0] == Remainder(base.items, sub.items);
  }

  method DifferencePhases(st: Streams, valid: Id -> bool) returns (err: nat, o: Out)
    requires |st.streams| == 2 && Pair(st.streams) && EMPTY !in Elems(BaseOf(st.streams).items)
    modifies st
    ensures NoFailure(o.msgs)
    ensures err == DONE ==> old(SubtractedAll(BaseOf(st.streams), SubOf(st.streams), Sent(o)))
    ensures err != DONE ==> MayFail(err, old(BaseOf(st.streams)), old(SubOf(st.streams)), valid)
  {
    ghost var base, sub := BaseOf(st.streams), SubOf(st.streams);
    ForeseeBothStart(base.items, sub.items);
    err, o := DifferenceBoth(st, valid, base, sub);
    if err == DONE {
      err, o := DifferenceTail(st, o, base, sub);
    }
  }

  method FastPathDifference(st: Streams, valid: Id -> bool) returns (msgs: seq<Msg>)
    requires |st.streams| == 2 && Pair(st.streams) && AllNonDescending(Rests(st.streams))
    requires EMPTY !in Elems(BaseOf(st.streams).items)
    modifies st
    // repetitions cancel one by one
    ensures FailureOf(msgs) == DONE ==>
              && multiset(Delivered(msgs)) == old(Remainder(BaseOf(st.streams).items, SubOf(st.streams).items))
              && NonDescending(Delivered(msgs))
    ensures FailureOf(msgs) == DONE ==>
              DifferenceIs(Delivered(msgs), old(BaseOf(st.streams)).items, old(SubOf(st.streams)).items)
    // without an error the base had none, and no failed read of the other stream can have made a difference
    ensures FailureOf(msgs) == DONE ==> SubtractedAll(old(BaseOf(st.streams)), old(SubOf(st.streams)), Delivered(msgs))
    ensures FailureOf(msgs) != DONE ==>
              MayFail(FailureOf(msgs), old(BaseOf(st.streams)), old(SubOf(st.streams)), valid)
  {
    ghost var base, sub := BaseOf(st.streams), SubOf(st.streams);
    PairRests(st.streams);
    assert base.items == Rests(st.streams)[0] && sub.items == Rests(st.streams)[1];
    var err, o := DifferencePhases(st, valid);
    if err != DONE {
      msgs := Fail(o, err);
    } else {
      msgs := Finish(o);
      SubtractedNow(base, sub, Delivered(msgs));
      AsSets(base.items, sub.items, Delivered(msgs));
    }
  }

  // ---------------------------------------------------------------- the operations on channels

  datatype Operation = Union | Intersection | Difference

  /** What the channels deliver, however it is cut into chunks. */
  function DeliveredAll(sources: seq<seq<Msg>>): (r: seq<seq<Id>>)
    ensures |r| == |sources| && forall i :: 0 <= i < |sources| ==> r[i] == Delivered(sources[i])
  {
    seq(|sources|, i requires 0 <= i < |sources| => Delivered(sources[i]))
  }

  function OpenAll(sources: seq<seq<Msg>>): (r: seq<Stream>)
    ensures |r| == |sources| && forall i :: 0 <= i < |sources| ==> r[i] == Opened(i, sources[i])
  {
    seq(|sources|, i requires 0 <= i < |sources| => Opened(i, sources[i]))
  }

  lemma OpenedRests(sources: seq<seq<Msg>>)
    ensures Rests(OpenAll(sources)) == DeliveredAll(sources)
  {
    forall i | 0 <= i < |sources|
      ensures OpenAll(sources)[i].Rest().items == Delivered(sources[i])
    {
      assert [] + Delivered(sources[i]) == Delivered(sources[i]);
    }
  }

  ghost function Meaning(op: Operation, items: seq<seq<Id>>): set<Id> {
    match op
    case Union => Members(items)
    case Intersection => Common(items)
    case Difference => if |items| == 2 then Elems(items[0]) - Elems(items[1]) else {}
  }

  ghost predicate Operands(op: Operation, sources: seq<seq<Msg>>) {
    && AllAscending(DeliveredAll(sources)) && EMPTY !in Members(DeliveredAll(sources))
    && (op == Intersection ==> sources != []) && (op == Difference ==> |sources| == 2)
  }

  /** No channel ends in an error, and every id is a well-formed object. */
  ghost predicate Sane(sources: seq<seq<Msg>>, valid: Id -> bool) {
    && (forall i :: 0 <= i < |sources| ==> FailureOf(sources[i]) == DONE)
    && (forall v :: v in Members(DeliveredAll(sources)) ==> valid(v))
  }

  lemma SaneHasNoErrors(sources: seq<seq<Msg>>, valid: Id -> bool)
    requires Sane(sources, valid)
    ensures Errs(OpenAll(sources)) <= {DONE}
    ensures forall i, v :: 0 <= i < |sources| && v in Elems(Delivered(sources[i])) ==> valid(v)
  {
  }

  /** Unless it reports an error, an operation delivers exactly its meaning in strictly ascending order. */
  method Run(op: Operation, sources: seq<seq<Msg>>, valid: Id -> bool) returns (msgs: seq<Msg>)
    requires Operands(op, sources)
    ensures FailureOf(msgs) == DONE ==>
              Ascending(Delivered(msgs)) && Elems(Delivered(msgs)) == Meaning(op, DeliveredAll(sources))
    ensures Sane(sources, valid) ==> FailureOf(msgs) == DONE
  {
    if Sane(sources, valid) {
      SaneHasNoErrors(sources, valid);
    }
    match op
    case Union =>
      var st := new Streams(OpenAll(sources));
      OpenedRests(sources);
      msgs := FastPathUnion(st);
    case Intersection =>
      var st := new Streams(OpenAll(sources));
      OpenedRests(sources);
      msgs := FastPathIntersection(st, valid);
    case Difference =>
      msgs := RunDifference(sources, valid);
  }

  method RunDifference(sources: seq<seq<Msg>>, valid: Id -> bool) returns (msgs: seq<Msg>)
    requires Operands(Difference, sources)
    ensures FailureOf(msgs) == DONE ==>
              Ascending(Delivered(msgs)) && Elems(Delivered(msgs)) == Meaning(Difference, DeliveredAll(sources))
    ensures FailureOf(msgs) != DONE ==>
              MayFail(FailureOf(msgs), OpenAll(sources)[0].Rest(), OpenAll(sources)[1].Rest(), valid)
  {
    var st := new Streams(OpenAll(sources));
    OpenedRests(sources);
    PairRests(st.streams);
    NotIn(DeliveredAll(sources)[0], DeliveredAll(sources));
    msgs := FastPathDifference(st, valid);
  }

  lemma NotIn(s: seq<Id>, ss: seq<seq<Id>>)
    requires s in ss && EMPTY !in Members(ss)
    ensures EMPTY !in Elems(s)
  {
  }

  /** Cutting the same streams into chunks in two ways, empty chunks included, gives the same result. */
  method CuttingIsIrrelevant(op: Operation, a: seq<seq<Msg>>, b: seq<seq<Msg>>, valid: Id -> bool)
    returns (x: seq<Msg>, y: seq<Msg>)
    requires Operands(op, a) && |a| == |b| && DeliveredAll(a) == DeliveredAll(b)
    ensures FailureOf(x) == DONE && FailureOf(y) == DONE ==> Delivered(x) == Delivered(y)
    ensures Sane(a, valid) && Sane(b, valid) ==> FailureOf(x) == DONE && FailureOf(y) == DONE
  {
    x := Run(op, a, valid);
    y := Run(op, b, valid);
    if FailureOf(x) == DONE && FailureOf(y) == DONE {
      forall v
        ensures v in Delivered(x) <==> v in Delivered(y)
      {
        assert v in Delivered(x) <==> v in Elems(Delivered(x));
        assert v in Delivered(y) <==> v in Elems(Delivered(y));
      }
      AscendingUnique(Delivered(x), Delivered(y));
    }
  }
}
