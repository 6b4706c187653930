/**
 The v1 stream: a reader over a channel of chunks that holds one chunk at a time, and the
 list of such readers that a set operation works on.
 */
module ChunkStreams {
  import opened Ids
  import opened Sorted
  import opened Channels
  import opened BottomUp

  /** What is in a channel, counted so that taking a chunk in always makes progress. */
  function Load(msgs: seq<Msg>): nat {
    if msgs == [] then 0 else 2 + (if msgs[0].Chunk? then |msgs[0].items| else 0) + Load(msgs[1..])
  }

  datatype Buffer = Nil | Buffer(items: seq<Id>)

  /** `closed` is set once the channel has ended; the stream is then done when its buffer is gone. */
  datatype Stream = Stream(idx: nat, buffer: Buffer, closed: bool, source: seq<Msg>) {

    predicate IsDone() { closed && buffer.Nil? }

    predicate HasHead() { buffer.Buffer? && buffer.items != [] }

    /** What is still to come, up to the first error. */
    function Rest(): Source {
      if closed then Source(if buffer.Nil? then [] else buffer.items, DONE)
      else Source((if buffer.Nil? then [] else buffer.items) + Delivered(source), FailureOf(source))
    }

    /** Shrinks with everything the stream does. */
    function Work(): nat {
      (if buffer.Nil? then 0 else 1 + |buffer.items|) + if closed then 0 else 1 + Load(source)
    }
  }

  function Opened(idx: nat, source: seq<Msg>): Stream {
    Stream(idx, Nil, false, source)
  }

  function Taken(s: Stream): Stream
    requires s.HasHead()
  {
    s.(buffer := Buffer(s.buffer.items[1..]))
  }

  function SkipBelow(items: seq<Id>, target: Id): (r: seq<Id>)
    ensures |r| <= |items| && r == items[|items| - |r|..]
    ensures forall j :: 0 <= j < |items| - |r| ==> items[j] < target
    ensures r != [] ==> target <= r[0]
  {
    if items == [] || target <= items[0] then items else SkipBelow(items[1..], target)
  }

  function Skipped(s: Stream, target: Id): Stream {
    if s.buffer.Nil? then s
    else
      var items := SkipBelow(s.buffer.items, target);
      s.(buffer := if items == [] then Nil else Buffer(items))
  }

  // ---------------------------------------------------------------- lists of streams

  function Rests(ss: seq<Stream>): (r: seq<seq<Id>>)
    ensures |r| == |ss| && forall i :: 0 <= i < |ss| ==> r[i] == ss[i].Rest().items
  {
    seq(|ss|, i requires 0 <= i < |ss| => ss[i].Rest().items)
  }

  /** What each stream has still to give, and how it ends. */
  function Sources(ss: seq<Stream>): (r: seq<Source>)
    ensures |r| == |ss| && forall i :: 0 <= i < |ss| ==> r[i] == ss[i].Rest()
  {
    seq(|ss|, i requires 0 <= i < |ss| => ss[i].Rest())
  }

  function TotalWork(ss: seq<Stream>): nat {
    if ss == [] then 0 else ss[0].Work() + TotalWork(ss[1..])
  }

  lemma {:induction false} WorkUpdated(ss: seq<Stream>, i: nat, s: Stream)
    requires i < |ss|
    ensures TotalWork(ss[i := s]) == TotalWork(ss) - ss[i].Work() + s.Work()
  {
    if i == 0 {
      assert ss[i := s][1..] == ss[1..];
    } else {
      assert ss[i := s][1..] == ss[1..][i - 1 := s];
      WorkUpdated(ss[1..], i - 1, s);
    }
  }

  lemma RestsUpdated(ss: seq<Stream>, i: nat, s: Stream)
    requires i < |ss|
    ensures Rests(ss[i := s]) == Rests(ss)[i := s.Rest().items]
    ensures s.Rest() == ss[i].Rest() ==> Rests(ss[i := s]) == Rests(ss)
  {
  }

  function Prune(ss: seq<Stream>): seq<Stream> {
    if ss == [] then [] else (if ss[0].IsDone() then [] else [ss[0]]) + Prune(ss[1..])
  }

  /** Removing streams that are done loses nothing. */
  lemma {:induction false} PruneKeepsMembers(ss: seq<Stream>)
    ensures Members(Rests(Prune(ss))) == Members(Rests(ss))
  {
    if ss != [] {
      PruneKeepsMembers(ss[1..]);
      MembersCons(ss);
      if ss[0].IsDone() {
        assert Prune(ss) == Prune(ss[1..]);
      } else {
        assert Prune(ss)[0] == ss[0] && Prune(ss)[1..] == Prune(ss[1..]);
        MembersCons(Prune(ss));
      }
    }
  }

  lemma {:induction false} PruneSelects(ss: seq<Stream>)
    ensures forall s :: s in Prune(ss) <==> s in ss && !s.IsDone()
    ensures TotalWork(Prune(ss)) <= TotalWork(ss)
    ensures |Prune(ss)| <= |ss| && (|Prune(ss)| == |ss| ==> Prune(ss) == ss)
  {
    if ss != [] {
      PruneSelects(ss[1..]);
      assert ss == [ss[0]] + ss[1..];
      if ss[0].IsDone() {
        assert Prune(ss) == Prune(ss[1..]);
      } else {
        assert Prune(ss)[0] == ss[0] && Prune(ss)[1..] == Prune(ss[1..]);
      }
    }
  }

  lemma MembersCons(ss: seq<Stream>)
    requires ss != []
    ensures Members(Rests(ss)) == Elems(ss[0].Rest().items) + Members(Rests(ss[1..]))
  {
  }

  ghost function Errs(ss: seq<Stream>): set<nat> {
    set s | s in ss :: s.Rest().err
  }

  class Streams {
    var streams: seq<Stream>

    constructor (streams: seq<Stream>)
      ensures this.streams == streams
    {
      this.streams := streams;
    }

    /** Reading a head discards a buffer that has run empty. */
    method Head(i: nat) returns (s: Step)
      requires i < |streams|
      modifies this
      ensures old(streams)[i].HasHead() ==> s == Value(old(streams)[i].buffer.items[0]) && streams == old(streams)
      ensures !old(streams)[i].HasHead() ==> s == Done && streams == old(streams)[i := old(streams)[i].(buffer := Nil)]
    {
      if streams[i].HasHead() {
        return Value(streams[i].buffer.items[0]);
      }
      streams := streams[i := streams[i].(buffer := Nil)];
      return Done;
    }

    /** Takes the head of a stream that shows one. */
    method Next(i: nat) returns (v: Id)
      requires i < |streams| && streams[i].HasHead()
      modifies this
      ensures v == old(streams)[i].buffer.items[0] && streams == old(streams)[i := Taken(old(streams)[i])]
    {
      v := streams[i].buffer.items[0];
      streams := streams[i := Taken(streams[i])];
    }

    /** Moves to the first buffered id at or above `target`, or past the end of the buffer. */
    method SkipToTargetObject(i: nat, target: Id, valid: Id -> bool) returns (ok: bool)
      requires i < |streams|
      modifies this
      ensures ok <==> valid(target)
      ensures streams == if ok then old(streams)[i := Skipped(old(streams)[i], target)] else old(streams)
    {
      if !valid(target) {
        return false;
      }
      var st := streams[i];
      if st.buffer.Nil? {
        return true;
      }
      var items: seq<Id> := st.buffer.items;
      while items != [] && items[0] < target
        invariant SkipBelow(items, target) == SkipBelow(st.buffer.items, target)
        decreases |items|
      {
        items := items[1..];
      }
      streams := streams[i := st.(buffer := if items == [] then Nil else Buffer(items))];
      ok := true;
    }

    /** Empties the buffer of a stream and returns what was in it. */
    method Drain(i: nat) returns (items: seq<Id>)
      requires i < |streams|
      modifies this
      ensures items == (if old(streams)[i].buffer.Nil? then [] else old(streams)[i].buffer.items)
      ensures streams == old(streams)[i := old(streams)[i].(buffer := Nil)]
    {
      items := [];
      while streams[i].HasHead()
        invariant |streams| == |old(streams)|
        invariant streams == old(streams)[i := old(streams)[i].(buffer := streams[i].buffer)]
        invariant old(streams)[i].buffer.Nil? ==> streams[i].buffer.Nil? && items == []
        invariant old(streams)[i].buffer.Buffer? ==>
                    streams[i].buffer.Buffer? && items + streams[i].buffer.items == old(streams)[i].buffer.items
        decreases if streams[i].buffer.Nil? then 0 else |streams[i].buffer.items|
      {
        var v := Next(i);
        items := items + [v];
      }
      var _ := Head(i);
    }

    /** Gives every stream without a buffer its next chunk, then removes the streams that are done. */
    method CleanDone() returns (err: nat)
      modifies this
      ensures err == DONE ==> (forall s :: s in old(streams) ==> FetchError(s) == DONE)
      ensures err == DONE ==> streams == Cleaned(old(streams))
      ensures err != DONE ==> err in old(Errs(streams))
    {
      var fetched := [];
      for i := 0 to |streams|
        invariant streams == old(streams)
        invariant fetched == FetchedAll(streams[..i])
        invariant forall j :: 0 <= j < i ==> FetchError(streams[j]) == DONE
      {
        err := FetchError(streams[i]);
        if err != DONE {
          assert streams[i] in streams;
          return;
        }
        fetched := fetched + [Fetched(streams[i])];
      }
      assert streams[..|streams|] == streams;
      streams := Prune(fetched);
      err := DONE;
    }
  }

  function FetchedAll(ss: seq<Stream>): (r: seq<Stream>)
    ensures |r| == |ss| && forall i :: 0 <= i < |ss| ==> r[i] == Fetched(ss[i])
  {
    seq(|ss|, i requires 0 <= i < |ss| => Fetched(ss[i]))
  }

  function Cleaned(ss: seq<Stream>): seq<Stream> {
    Prune(FetchedAll(ss))
  }

  lemma {:induction false} FetchingShrinksWork(ss: seq<Stream>)
    requires forall s :: s in ss ==> FetchError(s) == DONE
    ensures TotalWork(FetchedAll(ss)) <= TotalWork(ss)
  {
    if ss != [] {
      FetchKeeps(ss[0]);
      assert FetchedAll(ss)[1..] == FetchedAll(ss[1..]);
      FetchingShrinksWork(ss[1..]);
    }
  }

  /** Cleaning up keeps what is to come; the streams that stay have a buffer. */
  lemma CleaningKeeps(ss: seq<Stream>)
    requires forall s :: s in ss ==> FetchError(s) == DONE
    ensures Members(Rests(Cleaned(ss))) == Members(Rests(ss))
    ensures TotalWork(Cleaned(ss)) <= TotalWork(ss)
    ensures |Cleaned(ss)| <= |ss|
    ensures |Cleaned(ss)| == |ss| ==> Cleaned(ss) == FetchedAll(ss) && Rests(Cleaned(ss)) == Rests(ss)
    ensures forall s :: s in Cleaned(ss) ==> s.buffer.Buffer?
  {
    var f := FetchedAll(ss);
    forall i | 0 <= i < |ss|
      ensures f[i].Rest() == ss[i].Rest() && (f[i].buffer.Buffer? || f[i].IsDone())
    {
      assert ss[i] in ss;
      FetchKeeps(ss[i]);
    }
    assert Rests(f) == Rests(ss);
    FetchingShrinksWork(ss);
    PruneKeepsMembers(f);
    PruneSelects(f);
  }

  /** A stream that stays after cleaning up is one that was there; one that goes had nothing left. */
  lemma CleaningSelects(ss: seq<Stream>)
    requires forall s :: s in ss ==> FetchError(s) == DONE
    ensures forall s :: s in Cleaned(ss) ==> exists t :: t in ss && t.Rest() == s.Rest() && t.idx == s.idx
    ensures forall t :: t in ss ==> t.Rest() == Source([], DONE) || Fetched(t) in Cleaned(ss)
    ensures Errs(Cleaned(ss)) <= Errs(ss) <= Errs(Cleaned(ss)) + {DONE}
  {
    var f := FetchedAll(ss);
    PruneSelects(f);
    forall s | s in Cleaned(ss)
      ensures exists t :: t in ss && t.Rest() == s.Rest() && t.idx == s.idx
      ensures s.Rest().err in Errs(ss)
    {
      var i :| 0 <= i < |f| && f[i] == s;
      assert ss[i] in ss;
      FetchKeeps(ss[i]);
    }
    forall t | t in ss
      ensures t.Rest() == Source([], DONE) || Fetched(t) in Cleaned(ss)
      ensures t.Rest().err in Errs(Cleaned(ss)) + {DONE}
    {
      var i :| 0 <= i < |ss| && ss[i] == t;
      FetchKeeps(t);
      assert f[i] in f;
    }
  }

  lemma SameErrs(ss: seq<Stream>, i: nat, s: Stream)
    requires i < |ss| && s.Rest().err == ss[i].Rest().err
    ensures Errs(ss[i := s]) == Errs(ss)
  {
    var ss' := ss[i := s];
    forall e | e in Errs(ss)
      ensures e in Errs(ss')
    {
      var j :| 0 <= j < |ss| && ss[j].Rest().err == e;
      assert ss'[j] in ss';
    }
    forall e | e in Errs(ss')
      ensures e in Errs(ss)
    {
      var j :| 0 <= j < |ss'| && ss'[j].Rest().err == e;
      assert ss[j] in ss;
    }
  }

  /** The error waiting at the front of the channel of a stream that needs a chunk. */
  function FetchError(s: Stream): nat {
    if s.buffer.Nil? && !s.closed && s.source != [] && s.source[0].Failure? then s.source[0].code else DONE
  }

  function Fetched(s: Stream): Stream {
    if s.buffer.Buffer? || s.closed then s
    else if s.source == [] then s.(closed := true)
    else if s.source[0].Failure? then s
    else s.(buffer := Buffer(s.source[0].items), source := s.source[1..])
  }

  lemma FetchKeeps(s: Stream)
    requires FetchError(s) == DONE
    ensures Fetched(s).Rest() == s.Rest() && Fetched(s).idx == s.idx && Fetched(s).Work() <= s.Work()
    ensures Fetched(s).buffer.Buffer? || Fetched(s).IsDone()
  {
  }
}
