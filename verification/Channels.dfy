/**
 Id streams as they travel between goroutines: a channel carries chunks of ids and at most one
 final error. A batcher cuts a stream into chunks; a channel iterator puts it together again.
 */
module Channels {
  import opened Ids

  const BATCH_THRESHOLD := 100

  /** The code of an error; 0 stands for an iterator that is just done. */
  type ErrorCode = n: nat | n != 0 witness 1

  const DONE: nat := 0

  datatype Msg = Chunk(items: seq<Id>) | Failure(code: ErrorCode)

  /** What an iterator yields before it ends, and the error or `DONE` that it ends with. */
  datatype Source = Source(items: seq<Id>, err: nat)

  datatype Step = Value(id: Id) | Done | Error(code: ErrorCode)

  function Delivered(msgs: seq<Msg>): seq<Id> {
    if msgs == [] || msgs[0].Failure? then [] else msgs[0].items + Delivered(msgs[1..])
  }

  function FailureOf(msgs: seq<Msg>): nat {
    if msgs == [] then DONE else if msgs[0].Failure? then msgs[0].code else FailureOf(msgs[1..])
  }

  predicate FullChunks(msgs: seq<Msg>) {
    forall m :: m in msgs ==> m.Chunk? && |m.items| == BATCH_THRESHOLD
  }

  /** Full chunks, and after them possibly one that is not full. */
  predicate Chunks(msgs: seq<Msg>) {
    || FullChunks(msgs)
    || (&& FullChunks(msgs[..|msgs| - 1]) && msgs[|msgs| - 1].Chunk?
        && 0 < |msgs[|msgs| - 1].items| < BATCH_THRESHOLD)
  }

  predicate NoFailure(msgs: seq<Msg>) {
    forall m :: m in msgs ==> m.Chunk?
  }

  lemma {:induction false} DeliveredAppend(msgs: seq<Msg>, m: Msg)
    requires NoFailure(msgs)
    ensures Delivered(msgs + [m]) == Delivered(msgs) + if m.Chunk? then m.items else []
    ensures FailureOf(msgs + [m]) == if m.Chunk? then DONE else m.code
  {
    if msgs != [] {
      assert msgs[0] in msgs;
      assert (msgs + [m])[1..] == msgs[1..] + [m];
      DeliveredAppend(msgs[1..], m);
    }
  }

  lemma {:induction false} ChunksDoNotFail(msgs: seq<Msg>)
    requires NoFailure(msgs)
    ensures FailureOf(msgs) == DONE
  {
    if msgs != [] {
      assert msgs[0] in msgs;
      ChunksDoNotFail(msgs[1..]);
    }
  }

  lemma LastChunk(msgs: seq<Msg>, items: seq<Id>)
    requires FullChunks(msgs) && 0 < |items| <= BATCH_THRESHOLD
    ensures var all := msgs + [Chunk(items)];
            && Delivered(all) == Delivered(msgs) + items && NoFailure(all) && Chunks(all)
            && (|items| == BATCH_THRESHOLD ==> FullChunks(all))
  {
    DeliveredAppend(msgs, Chunk(items));
    assert (msgs + [Chunk(items)])[..|msgs|] == msgs;
  }

  class Batcher {
    var items: seq<Id>
    var out: seq<Msg>

    ghost predicate Valid()
      reads this
    {
      FullChunks(out) && |items| < BATCH_THRESHOLD
    }

    /** Everything added so far, sent or not. */
    ghost function Added(): seq<Id>
      reads this
    {
      Delivered(out) + items
    }

    constructor ()
      ensures Valid() && Added() == []
    {
      items := [];
      out := [];
    }

    method Add(val: Id)
      requires Valid()
      modifies this
      ensures Valid()
      ensures Added() == old(Added()) + if val == EMPTY then [] else [val]
    {
      if val == EMPTY {
        return;
      }
      items := items + [val];
      assert Delivered(out) + items == old(Delivered(out) + items) + [val];
      if |items| >= BATCH_THRESHOLD {
        Flush();
      }
    }

    method Flush()
      requires FullChunks(out) && |items| <= BATCH_THRESHOLD
      modifies this
      ensures NoFailure(out) && Chunks(out) && items == [] && Added() == old(Added())
      ensures old(|items|) == BATCH_THRESHOLD ==> Valid()
    {
      if |items| > 0 {
        LastChunk(out, items);
        out, items := out + [Chunk(items)], [];
      }
    }

    /** Sends what is left, then the error if there was one, and closes the channel. */
    method Close(err: nat) returns (msgs: seq<Msg>)
      requires Valid()
      modifies this
      ensures Delivered(msgs) == old(Added())
      ensures FailureOf(msgs) == err
      ensures Chunks(if err == DONE then msgs else msgs[..|msgs| - 1])
    {
      Flush();
      msgs := out;
      ChunksDoNotFail(msgs);
      if err != DONE {
        DeliveredAppend(out, Failure(err));
        msgs := msgs + [Failure(err)];
        assert msgs[..|msgs| - 1] == out;
      }
    }
  }

  class ChannelIterator {
    var source: seq<Msg>
    var current: seq<Id>
    var hasCurrent: bool
    var stopped: bool

    constructor (source: seq<Msg>)
      ensures Rest() == Source(Delivered(source), FailureOf(source)) && !stopped
    {
      this.source := source;
      current := [];
      hasCurrent := false;
      stopped := false;
    }

    /** What is still to come, up to the first error. */
    ghost function Rest(): Source
      reads this
    {
      Source((if hasCurrent then current else []) + Delivered(source), FailureOf(source))
    }

    method Next() returns (s: Step)
      modifies this
      ensures stopped == old(stopped)
      ensures stopped ==> s == Done && Rest() == old(Rest())
      ensures !stopped && old(Rest()).items != [] ==>
                && s == Value(old(Rest()).items[0])
                && Rest() == Source(old(Rest()).items[1..], old(Rest()).err)
      ensures !stopped && old(Rest()).items == [] ==>
                s == if old(Rest()).err == DONE then Done else Error(old(Rest()).err)
    {
      if stopped {
        return Done;
      }
      while true
        invariant !stopped && Rest() == old(Rest())
        decreases |source|, hasCurrent
      {
        if !hasCurrent {
          if source == [] {
            return Done;
          }
          var msg := source[0];
          source := source[1..];
          if msg.Failure? {
            return Error(msg.code);
          }
          current, hasCurrent := msg.items, true;
          continue;
        }
        if current == [] {
          hasCurrent := false;
          continue;
        }
        s := Value(current[0]);
        current := current[1..];
        return;
      }
    }

    method Stop()
      modifies this
      ensures stopped && !hasCurrent && current == [] && source == []
    {
      stopped := true;
      hasCurrent := false;
      current, source := [], [];
    }
  }

  lemma MoveHead(items: seq<Id>, rest: seq<Id>)
    requires rest != []
    ensures items + rest == (items + [rest[0]]) + rest[1..]
  {
  }

  /** Reading a channel to its end through the iterator gives back what was sent into it. */
  method ReadAll(msgs: seq<Msg>) returns (src: Source)
    ensures src == Source(Delivered(msgs), FailureOf(msgs))
  {
    var it := new ChannelIterator(msgs);
    var items := [];
    ghost var all, rest, code := Delivered(msgs), Delivered(msgs), FailureOf(msgs);
    while true
      invariant fresh(it) && !it.stopped && it.Rest() == Source(rest, code)
      invariant items + rest == all
      decreases |rest|
    {
      var s := it.Next();
      if !s.Value? {
        it.Stop();
        return Source(items, if s.Done? then DONE else s.code);
      }
      MoveHead(items, rest);
      items, rest := items + [s.id], rest[1..];
    }
  }
}
