/**
 The check cache and its controller as one state machine for a store. Requests start, answers are
 stored, tuples are written and refreshes of the changelog entry run, all in any order, while one
 clock advances between any two of them. Entries leave the cache only by expiring.
 */
module CacheRuns {
  import opened Durations

  type Time = nat

  /** The zero time, before everything that happens. */
  const NEVER: Time := 0

  /**
   The changelog entry is stored for `queryTTL`, an answer for some duration between that and
   `longestTTL`. `lag` bounds the time between taking the stamp of an answer and storing the answer, and
   `span` the time between the beginning of the evaluation and taking the stamp.
   */
  datatype Config = Config(queryTTL: int, longestTTL: int, minInterval: int, lag: nat, span: nat)

  datatype Record = NoRecord | Record(lastModified: Time, lastChecked: Time, expires: int)

  datatype Refresh = Idle | Reading | Newest(change: Time) | Ending

  /** `began` is when the evaluation of the stored answer began; the code does not keep it. */
  datatype Entry = Entry(began: Time, lastModified: Time, expires: int)

  /** `floor` is the invalidation time that the request got; `known` what had been recorded when it started. */
  datatype Request = Request(floor: Time, known: Time)

  /** `known` is the newest change that the controller has ever recorded. */
  datatype State = State(
    now: Time, changes: seq<Time>, record: Record, refresh: Refresh,
    entries: map<nat, Entry>, requests: map<nat, Request>, known: Time)

  datatype Step =
    | Tick(d: nat)
    | Write
    | Begin(request: nat)
    | ReadLog
    | ReadFails
    | SetRecord
    | Release
    | Store(key: nat, began: Time, stamp: Time, ttl: int)
    | End(request: nat)

  function Initial(): State {
    State(1, [], NoRecord, Idle, map[], map[], NEVER)
  }

  predicate Live(expires: int, now: Time) {
    now < expires
  }

  /** The changelog entry as a cache lookup sees it. */
  predicate HasRecord(s: State) {
    s.record.Record? && Live(s.record.expires, s.now)
  }

  predicate Enabled(c: Config, s: State, step: Step) {
    match step
    case ReadLog => s.refresh.Reading? && s.changes != []
    case ReadFails => s.refresh.Reading?
    case SetRecord => s.refresh.Newest?
    case Release => s.refresh.Ending?
    case Store(_, began, stamp, ttl) =>
      && NEVER < began <= stamp <= began + c.span && stamp <= s.now <= stamp + c.lag
      && c.queryTTL <= ttl <= c.longestTTL
    case _ => true
  }

  /** A request reads the record and starts a refresh when it is missing or was last checked long ago. */
  function Started(c: Config, s: State, request: nat): State {
    var floor := if HasRecord(s) then s.record.lastModified else NEVER;
    var due := !HasRecord(s) || s.now - s.record.lastChecked > c.minInterval;
    s.(requests := s.requests[request := Request(floor, s.known)],
       refresh := if due && s.refresh.Idle? then Reading else s.refresh)
  }

  function Recorded(c: Config, s: State, change: Time): State {
    if c.queryTTL < 0 then
      s.(refresh := Ending)
    else
      s.(refresh := Ending, record := Record(change, s.now, s.now + Life(c.queryTTL)),
         known := if change > s.known then change else s.known)
  }

  function Apply(c: Config, s: State, step: Step): State
    requires Enabled(c, s, step)
  {
    match step
    case Tick(d) => s.(now := s.now + d)
    case Write => s.(changes := s.changes + [s.now])
    case Begin(request) => Started(c, s, request)
    case ReadLog => s.(refresh := Newest(s.changes[|s.changes| - 1]))
    case ReadFails => s.(refresh := Ending)
    case SetRecord => Recorded(c, s, s.refresh.change)
    case Release => s.(refresh := Idle)
    case Store(key, began, stamp, ttl) =>
      if ttl < 0 then s else s.(entries := s.entries[key := Entry(began, stamp, s.now + Life(ttl))])
    case End(request) => s.(requests := s.requests - {request})
  }

  ghost predicate Run(c: Config, s: State, steps: seq<Step>, s': State)
    decreases |steps|
  {
    if steps == [] then s' == s
    else Enabled(c, s, steps[0]) && Run(c, Apply(c, s, steps[0]), steps[1..], s')
  }

  /** The lookup of a request: a live entry whose stamp is after the request's invalidation time. */
  predicate Serves(s: State, request: nat, key: nat) {
    && request in s.requests && key in s.entries
    && Live(s.entries[key].expires, s.now) && s.entries[key].lastModified > s.requests[request].floor
  }

  /** No request is served an answer stamped at or before a change recorded before the request. */
  ghost predicate Fresh(s: State) {
    forall request, key :: Serves(s, request, key) ==> s.entries[key].lastModified > s.requests[request].known
  }

  ghost predicate AlwaysFresh(c: Config) {
    forall steps, s :: Run(c, Initial(), steps, s) ==> Fresh(s)
  }

  function LongestLife(c: Config): int {
    Life(c.longestTTL)
  }

  /**
   No answer outlives a changelog entry that was recorded at or after the answer's stamp, or nothing
   is ever recorded or kept.
   */
  predicate Outlasts(c: Config)
    requires c.queryTTL <= c.longestTTL
  {
    c.queryTTL < 0 || LongestLife(c) == 0 || c.lag + LongestLife(c) <= Life(c.queryTTL)
  }

  ghost predicate Ordered(changes: seq<Time>, now: Time) {
    && (forall i :: 0 <= i < |changes| ==> NEVER < changes[i] <= now)
    && (forall i, j :: 0 <= i < j < |changes| ==> changes[i] <= changes[j])
  }

  /** The controller's part: records never go back, and each lasts its full time. */
  ghost predicate RecordOk(c: Config, s: State) {
    && NEVER < s.now && Ordered(s.changes, s.now) && s.known <= s.now
    && (s.known > NEVER ==> s.changes != [] && s.known <= s.changes[|s.changes| - 1])
    && (s.refresh.Newest? ==> s.known <= s.refresh.change <= s.now && s.changes != [])
    && (s.refresh.Newest? && s.changes != [] ==> s.refresh.change <= s.changes[|s.changes| - 1])
    && (s.record.NoRecord? || c.queryTTL < 0 ==> s.known == NEVER)
    && (s.record.Record? ==> s.record.lastModified == s.known && s.known + Life(c.queryTTL) <= s.record.expires)
  }

  ghost predicate EntryOk(c: Config, s: State, e: Entry) {
    && e.expires <= e.lastModified + c.lag + LongestLife(c) && e.expires <= s.now + LongestLife(c)
    && NEVER < e.began <= e.lastModified <= e.began + c.span
  }

  /** A request has seen what was recorded before it, or that record has since had time to expire. */
  ghost predicate RequestOk(c: Config, s: State, r: Request) {
    r.known <= r.floor || r.known + Life(c.queryTTL) <= s.now
  }

  ghost predicate Invariant(c: Config, s: State) {
    && RecordOk(c, s)
    && (forall k :: k in s.entries ==> EntryOk(c, s, s.entries[k]))
    && (forall r :: r in s.requests ==> RequestOk(c, s, s.requests[r]) && s.requests[r].known <= s.known)
  }

  lemma StepKeepsInvariant(c: Config, s: State, step: Step)
    requires Invariant(c, s) && Enabled(c, s, step)
    ensures Invariant(c, Apply(c, s, step))
  {
    var s' := Apply(c, s, step);
    StepKeepsRecord(c, s, step);
    forall k | k in s'.entries
      ensures EntryOk(c, s', s'.entries[k])
    {
      assert k in s.entries ==> EntryOk(c, s, s.entries[k]);
    }
    forall r | r in s'.requests
      ensures RequestOk(c, s', s'.requests[r]) && s'.requests[r].known <= s'.known
    {
      assert r in s.requests ==> RequestOk(c, s, s.requests[r]) && s.requests[r].known <= s.known;
    }
  }

  lemma StepKeepsRecord(c: Config, s: State, step: Step)
    requires RecordOk(c, s) && Enabled(c, s, step)
    ensures RecordOk(c, Apply(c, s, step)) && s.known <= Apply(c, s, step).known && s.now <= Apply(c, s, step).now
  {
    if step.Write? {
      var changes := s.changes + [s.now];
      assert Ordered(changes, s.now) && changes[|changes| - 1] == s.now;
    }
  }

  lemma {:induction false} RunKeepsInvariant(c: Config, s: State, steps: seq<Step>, s': State)
    requires Invariant(c, s) && Run(c, s, steps, s')
    ensures Invariant(c, s')
    decreases |steps|
  {
    if steps != [] {
      StepKeepsInvariant(c, s, steps[0]);
      RunKeepsInvariant(c, Apply(c, s, steps[0]), steps[1..], s');
    }
  }

  /** With one refresh at a time, a later record never names an older change. */
  lemma RecordsNeverGoBack(c: Config, steps: seq<Step>, s: State)
    requires Run(c, Initial(), steps, s) && Enabled(c, s, SetRecord)
    ensures s.record.Record? ==> s.record.lastModified <= s.refresh.change
  {
    RunKeepsInvariant(c, Initial(), steps, s);
  }

  lemma OutlastingIsFresh(c: Config, s: State)
    requires c.queryTTL <= c.longestTTL && Outlasts(c) && Invariant(c, s)
    ensures Fresh(s)
  {
    forall request, key | Serves(s, request, key)
      ensures s.entries[key].lastModified > s.requests[request].known
    {
      assert EntryOk(c, s, s.entries[key]) && RequestOk(c, s, s.requests[request]);
    }
  }

  lemma RunStarts(c: Config, s: State, step: Step, steps: seq<Step>, s': State)
    requires Enabled(c, s, step) && Run(c, Apply(c, s, step), steps, s')
    ensures Run(c, s, [step] + steps, s')
  {
  }

  lemma RunEnds(c: Config, s: State, step: Step)
    requires Enabled(c, s, step)
    ensures Run(c, s, [step], Apply(c, s, step))
  {
  }

  /** A write at the first instant is recorded at once. */
  function EarlyRecord(c: Config): State
    requires c.queryTTL >= 0
  {
    var s := Apply(c, Apply(c, Apply(c, Initial(), Write), Begin(0)), ReadLog);
    Apply(c, s, SetRecord)
  }

  lemma EarlyRecordIsReached(c: Config, steps: seq<Step>, s': State)
    requires c.queryTTL >= 0 && Run(c, EarlyRecord(c), steps, s')
    ensures exists all :: Run(c, Initial(), all, s')
  {
    var s1 := Apply(c, Initial(), Write);
    var s2 := Apply(c, s1, Begin(0));
    var s3 := Apply(c, s2, ReadLog);
    RunStarts(c, s3, SetRecord, steps, s');
    RunStarts(c, s2, ReadLog, [SetRecord] + steps, s');
    RunStarts(c, s1, Begin(0), [ReadLog] + ([SetRecord] + steps), s');
    RunStarts(c, Initial(), Write, [Begin(0)] + ([ReadLog] + ([SetRecord] + steps)), s');
  }

  /** An answer stamped at that instant is stored late and read when the record has just expired. */
  lemma LateRead(c: Config, s: State) returns (steps: seq<Step>, s': State)
    requires c.queryTTL <= c.longestTTL && !Outlasts(c)
    requires s.now == s.known == 1 && s.record == Record(1, 1, 1 + Life(c.queryTTL))
    ensures Run(c, s, steps, s') && !Fresh(s')
  {
    var s1 := Apply(c, s, Tick(c.lag));
    var store := Store(0, 1, 1, c.longestTTL);
    var s2 := Apply(c, s1, store);
    var wait := Tick(LongestLife(c) - 1);
    var s3 := Apply(c, s2, wait);
    s' := Apply(c, s3, Begin(1));
    RunEnds(c, s3, Begin(1));
    RunStarts(c, s2, wait, [Begin(1)], s');
    steps := [wait] + [Begin(1)];
    RunStarts(c, s1, store, steps, s');
    steps := [store] + steps;
    RunStarts(c, s, Tick(c.lag), steps, s');
    steps := [Tick(c.lag)] + steps;
    assert Serves(s', 1, 0);
  }

  /** Every run is fresh exactly when answers do not outlast the record. */
  lemma FreshIffOutlasts(c: Config)
    requires c.queryTTL <= c.longestTTL
    ensures AlwaysFresh(c) <==> Outlasts(c)
  {
    if Outlasts(c) {
      forall steps, s | Run(c, Initial(), steps, s)
        ensures Fresh(s)
      {
        RunKeepsInvariant(c, Initial(), steps, s);
        OutlastingIsFresh(c, s);
      }
    } else {
      var steps, s := LateRead(c, EarlyRecord(c));
      EarlyRecordIsReached(c, steps, s);
    }
  }

  /**
   With the jitter of the configuration, every run is fresh iff nothing is kept, or answers are stored the
   moment they are stamped and the jitter cannot lengthen a lifetime of less than a year by one unit.
   */
  lemma FreshIffUnjittered(ttl: int, percentage: nat, minInterval: int, lag: nat, span: nat)
    requires ttl <= MAX_DURATION
    ensures AlwaysFresh(Config(ttl, LongestTTL(ttl, percentage), minInterval, lag, span))
       <==> ttl <= 0 || (lag == 0 && (ttl >= ONE_YEAR || ttl * Min(percentage, 100) < 100))
  {
    if ttl > 0 {
      MaxJitterIsShare(ttl, percentage);
    }
    FreshIffOutlasts(Config(ttl, LongestTTL(ttl, percentage), minInterval, lag, span));
  }

  // ---------------------------------------------------------------- answers computed before a change

  /** Every answer served was computed after every change recorded before the request. */
  ghost predicate Current(s: State) {
    forall request, key :: Serves(s, request, key) ==> s.entries[key].began > s.requests[request].known
  }

  ghost predicate AlwaysCurrent(c: Config) {
    forall steps, s :: Run(c, Initial(), steps, s) ==> Current(s)
  }

  /** The stamp is taken after the evaluation, so a change during the evaluation goes unnoticed. */
  lemma Straddle(c: Config) returns (steps: seq<Step>, s: State)
    requires 0 <= c.queryTTL <= c.longestTTL && LongestLife(c) > 0 && c.span > 0
    ensures Run(c, EarlyRecord(c), steps, s) && !Current(s)
  {
    var s0 := EarlyRecord(c);
    var s1 := Apply(c, s0, Tick(1));
    var store := Store(0, 1, 2, c.longestTTL);
    var s2 := Apply(c, s1, store);
    s := Apply(c, s2, Begin(1));
    RunEnds(c, s2, Begin(1));
    RunStarts(c, s1, store, [Begin(1)], s);
    RunStarts(c, s0, Tick(1), [store] + [Begin(1)], s);
    steps := [Tick(1)] + ([store] + [Begin(1)]);
    assert Serves(s, 1, 0);
  }

  /** Every run serves current answers only, iff it serves fresh ones only and evaluation takes no time. */
  lemma CurrentIffInstant(c: Config)
    requires c.queryTTL <= c.longestTTL
    ensures AlwaysCurrent(c) <==>
              c.queryTTL < 0 || LongestLife(c) == 0 || (c.span == 0 && c.lag + LongestLife(c) <= Life(c.queryTTL))
  {
    FreshIffOutlasts(c);
    if AlwaysCurrent(c) {
      forall steps, s | Run(c, Initial(), steps, s)
        ensures Fresh(s)
      {
        CurrentIsFresh(c, steps, s);
      }
    }
    if Outlasts(c) && (c.span == 0 || c.queryTTL < 0 || LongestLife(c) == 0) {
      forall steps, s | Run(c, Initial(), steps, s)
        ensures Current(s)
      {
        FreshIsCurrent(c, steps, s);
      }
    } else if Outlasts(c) {
      var steps, s := Straddle(c);
      EarlyRecordIsReached(c, steps, s);
    }
  }

  lemma CurrentIsFresh(c: Config, steps: seq<Step>, s: State)
    requires Run(c, Initial(), steps, s) && Current(s)
    ensures Fresh(s)
  {
    RunKeepsInvariant(c, Initial(), steps, s);
    forall request, key | Serves(s, request, key)
      ensures s.entries[key].lastModified > s.requests[request].known
    {
      assert EntryOk(c, s, s.entries[key]);
    }
  }

  lemma FreshIsCurrent(c: Config, steps: seq<Step>, s: State)
    requires Run(c, Initial(), steps, s) && Fresh(s) && c.queryTTL <= c.longestTTL
    requires c.span == 0 || c.queryTTL < 0 || LongestLife(c) == 0
    ensures Current(s)
  {
    RunKeepsInvariant(c, Initial(), steps, s);
    forall request, key | Serves(s, request, key)
      ensures s.entries[key].began > s.requests[request].known
    {
      assert EntryOk(c, s, s.entries[key]);
    }
  }

  // ---------------------------------------------------------------- that changes come to be noticed

  /**
   A request gets the change on record, if the record has not expired. It leaves a refresh in flight unless the
   record was checked within the interval, and then it starts none.
   */
  lemma BeginRefreshes(c: Config, s: State, request: nat)
    ensures var s', r := Apply(c, s, Begin(request)), s.record;
            && request in s'.requests
            && (if r.Record? && s.now < r.expires then
                  && s'.requests[request].floor == r.lastModified
                  && (s.now > r.lastChecked + c.minInterval ==> !s'.refresh.Idle?)
                  && (s.now <= r.lastChecked + c.minInterval ==> s'.refresh == s.refresh)
                else
                  s'.requests[request].floor == NEVER && !s'.refresh.Idle?)
            && (s.refresh.Idle? && !s'.refresh.Idle? ==> s'.refresh == Reading)
            && (!s.refresh.Idle? ==> s'.refresh == s.refresh)
  {
  }

  /**
   A finished refresh settles things for the interval: until its record expires, requests get the change it found,
   and the first refresh after it is started by the first request after the interval.
   */
  lemma RecordLasts(c: Config, s: State, d: nat, request: nat)
    requires Enabled(c, s, SetRecord) && c.queryTTL >= 0
    ensures var released := Apply(c, Apply(c, s, SetRecord), Release);
            var s' := Apply(c, Apply(c, released, Tick(d)), Begin(request));
            && request in s'.requests && released.now == s.now
            && (if d < Min(c.queryTTL, ONE_YEAR) then
                  && s'.requests[request].floor == s.refresh.change
                  && s'.refresh == (if d <= c.minInterval then Idle else Reading)
                else
                  s'.requests[request].floor == NEVER && s'.refresh == Reading)
  {
  }

  /** A refresh that fails leaves everything as it was, so that the next request starts another. */
  lemma FailedRefreshIsRetried(c: Config, s: State, first: nat, second: nat)
    requires s.refresh.Idle?
    requires s.record.Record? ==> s.now >= s.record.expires || s.now > s.record.lastChecked + c.minInterval
    ensures var started := Apply(c, s, Begin(first));
            && started.refresh == Reading
            && var failed := Apply(c, Apply(c, Apply(c, started, ReadFails), Release), End(first));
               && failed == s.(requests := s.requests - {first})
               && Apply(c, failed, Begin(second)).refresh == Reading
  {
    BeginRefreshes(c, s, first);
  }

  /** No change of the list is later than `t`. */
  ghost predicate UpTo(changes: seq<Time>, t: Time) {
    forall x :: x in changes ==> x <= t
  }

  /** A refresh that has not read the changelog by now will read all that is in it now. */
  lemma StepCatchesUp(c: Config, s: State, step: Step, changes: seq<Time>)
    requires RecordOk(c, s) && Enabled(c, s, step)
    requires changes <= s.changes && (s.refresh.Newest? ==> UpTo(changes, s.refresh.change))
    ensures var s' := Apply(c, s, step);
            changes <= s'.changes && (s'.refresh.Newest? ==> UpTo(changes, s'.refresh.change))
    ensures step == SetRecord && c.queryTTL >= 0 ==> UpTo(changes, Apply(c, s, step).known)
  {
    if step.ReadLog? {
      forall x | x in changes
        ensures x <= s.changes[|s.changes| - 1]
      {
        var i :| 0 <= i < |changes| && changes[i] == x;
        assert s.changes[i] == x;
      }
    }
  }

  lemma {:induction false} RunCatchesUp(c: Config, s: State, steps: seq<Step>, s': State, changes: seq<Time>)
    requires RecordOk(c, s) && Run(c, s, steps, s') && c.queryTTL >= 0
    requires changes <= s.changes && (s.refresh.Newest? ==> UpTo(changes, s.refresh.change))
    ensures RecordOk(c, s') && s.known <= s'.known && (SetRecord in steps ==> UpTo(changes, s'.known))
    decreases |steps|
  {
    if steps != [] {
      var s1 := Apply(c, s, steps[0]);
      StepKeepsRecord(c, s, steps[0]);
      StepCatchesUp(c, s, steps[0], changes);
      RunCatchesUp(c, s1, steps[1..], s', changes);
      assert SetRecord in steps ==> steps[0] == SetRecord || SetRecord in steps[1..];
    }
  }

  /**
   A request that finds no refresh in flight and a check longer ago than the interval starts one. Once that or a
   later refresh has recorded, a request that finds a record is served nothing stamped at or before a change
   made before the first request.
   */
  lemma ChangesAreNoticed(c: Config, before: seq<Step>, s: State, first: nat, steps: seq<Step>, s1: State, second: nat,
                          key: nat)
    requires Run(c, Initial(), before, s) && s.refresh.Idle? && c.queryTTL >= 0
    requires s.record.Record? ==> s.now >= s.record.expires || s.now > s.record.lastChecked + c.minInterval
    requires Run(c, Apply(c, s, Begin(first)), steps, s1) && SetRecord in steps
    requires s1.record.Record? && s1.now < s1.record.expires
    ensures Apply(c, s, Begin(first)).refresh == Reading
    ensures UpTo(s.changes, s1.record.lastModified)
    ensures Serves(Apply(c, s1, Begin(second)), second, key) ==>
              forall x :: x in s.changes ==> x < s1.entries[key].lastModified
  {
    RunKeepsInvariant(c, Initial(), before, s);
    BeginRefreshes(c, s, first);
    var started := Apply(c, s, Begin(first));
    StepKeepsInvariant(c, s, Begin(first));
    RunCatchesUp(c, started, steps, s1, s.changes);
    BeginRefreshes(c, s1, second);
  }
}
