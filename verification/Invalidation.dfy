/**
 One pass of the cache controller over a store's changelog. It records the newest change and marks
 the cached iterators that newer changes touch: all of the store, or those of an object and relation
 and those of a user and object type.
 */
module Invalidation {
  import opened Durations
  import opened Wrappers

  type Time = int

  const BEGINNING: Time := 0

  /** The number of changes that one read returns. */
  const PAGE_SIZE := 50

  datatype Change = Change(objectType: nat, objectId: nat, relation: nat, user: nat, at: Time)

  datatype ObjectRelation = ObjectRelation(objectType: nat, objectId: nat, relation: nat)

  datatype UserAndType = UserAndType(user: nat, objectType: nat)

  function ObjectRelationOf(c: Change): ObjectRelation {
    ObjectRelation(c.objectType, c.objectId, c.relation)
  }

  function UserAndTypeOf(c: Change): UserAndType {
    UserAndType(c.user, c.objectType)
  }

  datatype Record = Record(lastModified: Time, lastChecked: Time, expires: Time)

  /** The newest change is later than the one on record, or the record is missing or has expired. */
  predicate FindsNew(record: Option<Record>, newest: Time, now: Time) {
    record.Some? && now < record.value.expires ==> record.value.lastModified < newest
  }

  /** What reading the changelog gives; a changelog without changes reads as an error. */
  datatype Read = TimedOut | Failed | Page(changes: seq<Change>)

  /** The changelog, newest change first. */
  ghost predicate Descending(log: seq<Change>) {
    forall i, j :: 0 <= i < j < |log| ==> log[i].at >= log[j].at
  }

  /** Changes are only added to the changelog, in front. */
  ghost predicate Appends(earlier: seq<Change>, log: seq<Change>) {
    |earlier| <= |log| && log[|log| - |earlier|..] == earlier
  }

  ghost function Added(earlier: seq<Change>, log: seq<Change>): seq<Change>
    requires |earlier| <= |log|
  {
    log[..|log| - |earlier|]
  }

  ghost predicate FirstPage(log: seq<Change>, page: seq<Change>) {
    page != [] && page == if |log| <= PAGE_SIZE then log else log[..PAGE_SIZE]
  }

  /** The marks that a cached iterator is compared with, each with its stamp. */
  datatype Marks = Marks(storeWide: Option<Time>, byObject: map<ObjectRelation, Time>, byUser: map<UserAndType, Time>)

  /** A cached read: of an object's relation, or of what some users have on the objects of a type. */
  datatype CachedRead =
    | OfObject(objectType: nat, objectId: nat, relation: nat, begun: Time)
    | OfUsers(users: seq<nat>, objectType: nat, begun: Time)

  /** The change may alter what the read yields. */
  predicate Touches(c: Change, e: CachedRead) {
    match e
    case OfObject(ot, id, r, _) => c.objectType == ot && c.objectId == id && c.relation == r
    case OfUsers(us, ot, _) => c.user in us && c.objectType == ot
  }

  /** Some mark that bears on the read is later than the time it began. */
  predicate Revoked(m: Marks, e: CachedRead) {
    || (m.storeWide.Some? && e.begun < m.storeWide.value)
    || match e
       case OfObject(ot, id, r, begun) =>
         ObjectRelation(ot, id, r) in m.byObject && begun < m.byObject[ObjectRelation(ot, id, r)]
       case OfUsers(us, ot, begun) =>
         exists u :: u in us && UserAndType(u, ot) in m.byUser && begun < m.byUser[UserAndType(u, ot)]
  }

  method IsInvalidAt(m: Marks, e: CachedRead) returns (invalid: bool)
    ensures invalid <==> Revoked(m, e)
  {
    if m.storeWide.Some? && e.begun < m.storeWide.value {
      return true;
    }
    match e
    case OfObject(ot, id, r, begun) =>
      var k := ObjectRelation(ot, id, r);
      invalid := k in m.byObject && begun < m.byObject[k];
    case OfUsers(us, ot, begun) =>
      for i := 0 to |us|
        invariant forall j :: 0 <= j < i ==>
                                !(UserAndType(us[j], ot) in m.byUser && begun < m.byUser[UserAndType(us[j], ot)])
      {
        var k := UserAndType(us[i], ot);
        if k in m.byUser && begun < m.byUser[k] {
          return true;
        }
      }
      invalid := false;
  }

  /** A mark at or after the change revokes the iterators that the change may touch. */
  predicate Covered(m: Marks, c: Change) {
    || (m.storeWide.Some? && m.storeWide.value >= c.at)
    || (&& ObjectRelationOf(c) in m.byObject && m.byObject[ObjectRelationOf(c)] >= c.at
        && UserAndTypeOf(c) in m.byUser && m.byUser[UserAndTypeOf(c)] >= c.at)
  }

  ghost predicate RecentCovered(m: Marks, log: seq<Change>, cutoff: Time) {
    forall c :: c in log && c.at > cutoff ==> Covered(m, c)
  }

  /** The marks of one change are stamped. */
  function Mark(m: Marks, c: Change, stamp: Time): Marks {
    m.(byObject := m.byObject[ObjectRelationOf(c) := stamp], byUser := m.byUser[UserAndTypeOf(c) := stamp])
  }

  function ObjectKeys(cs: set<Change>): set<ObjectRelation> {
    set c | c in cs :: ObjectRelationOf(c)
  }

  function UserKeys(cs: set<Change>): set<UserAndType> {
    set c | c in cs :: UserAndTypeOf(c)
  }

  /** The keys of the changes are stamped, and no other. */
  function MarkAll(m: Marks, cs: set<Change>, stamp: Time): Marks {
    m.(byObject := Stamped(m.byObject, ObjectKeys(cs), stamp), byUser := Stamped(m.byUser, UserKeys(cs), stamp))
  }

  function Stamped<K>(m: map<K, Time>, ks: set<K>, stamp: Time): map<K, Time> {
    m + map k | k in ks :: stamp
  }

  lemma StampOneMore<K>(m: map<K, Time>, ks: set<K>, k: K, stamp: Time)
    ensures Stamped(m, ks, stamp)[k := stamp] == Stamped(m, ks + {k}, stamp)
  {
  }

  lemma MarkOneMore(m: Marks, cs: set<Change>, c: Change, stamp: Time)
    ensures Mark(MarkAll(m, cs, stamp), c, stamp) == MarkAll(m, cs + {c}, stamp)
  {
    assert ObjectKeys(cs + {c}) == ObjectKeys(cs) + {ObjectRelationOf(c)};
    assert UserKeys(cs + {c}) == UserKeys(cs) + {UserAndTypeOf(c)};
    StampOneMore(m.byObject, ObjectKeys(cs), ObjectRelationOf(c), stamp);
    StampOneMore(m.byUser, UserKeys(cs), UserAndTypeOf(c), stamp);
  }

  /** Field by field: a key is stamped iff one of the changes has its fields, and no other key changes. */
  lemma MarkAllFields(m: Marks, cs: set<Change>, stamp: Time, ot: nat, id: nat, r: nat, u: nat)
    ensures var m' := MarkAll(m, cs, stamp);
            && (if exists c :: c in cs && c.objectType == ot && c.objectId == id && c.relation == r
                then ObjectRelation(ot, id, r) in m'.byObject && m'.byObject[ObjectRelation(ot, id, r)] == stamp
                else SameAt(m.byObject, m'.byObject, ObjectRelation(ot, id, r)))
            && (if exists c :: c in cs && c.user == u && c.objectType == ot
                then UserAndType(u, ot) in m'.byUser && m'.byUser[UserAndType(u, ot)] == stamp
                else SameAt(m.byUser, m'.byUser, UserAndType(u, ot)))
  {
    if c :| c in cs && c.objectType == ot && c.objectId == id && c.relation == r {
      assert ObjectRelationOf(c) in ObjectKeys(cs);
    }
    if c :| c in cs && c.user == u && c.objectType == ot {
      assert UserAndTypeOf(c) in UserKeys(cs);
    }
  }

  ghost predicate SameAt<K, V>(a: map<K, V>, b: map<K, V>, k: K) {
    (k in a <==> k in b) && (k in a ==> a[k] == b[k])
  }

  /** No mark is later than the time. */
  ghost predicate StampedBy(m: Marks, now: Time) {
    && (m.storeWide.Some? ==> m.storeWide.value <= now)
    && (forall k :: k in m.byObject ==> m.byObject[k] <= now)
    && (forall k :: k in m.byUser ==> m.byUser[k] <= now)
  }

  /** Marking changes revokes, of the reads begun before, those that one of the changes touches, and no other. */
  lemma MarkAllRevokes(m: Marks, cs: set<Change>, stamp: Time, e: CachedRead)
    requires StampedBy(m, stamp)
    ensures Revoked(MarkAll(m, cs, stamp), e) <==>
              Revoked(m, e) || (e.begun < stamp && exists c :: c in cs && Touches(c, e))
  {
    var m' := MarkAll(m, cs, stamp);
    match e
    case OfObject(ot, id, r, _) =>
      MarkAllFields(m, cs, stamp, ot, id, r, 0);
      assert (exists c :: c in cs && Touches(c, e)) <==>
             exists c :: c in cs && c.objectType == ot && c.objectId == id && c.relation == r;
    case OfUsers(us, ot, begun) =>
      forall u | u in us
        ensures begun < stamp && (exists c :: c in cs && c.user == u && c.objectType == ot) ==> Revoked(m', e)
        ensures UserAndType(u, ot) in m.byUser && begun < m.byUser[UserAndType(u, ot)] ==> Revoked(m', e)
        ensures UserAndType(u, ot) in m'.byUser && begun < m'.byUser[UserAndType(u, ot)] ==>
                  Revoked(m, e) || (begun < stamp && exists c :: c in cs && Touches(c, e))
      {
        OneUserRevokes(m, cs, stamp, e, u);
      }
      if c :| c in cs && Touches(c, e) {
        assert c.user in us && c.user == c.user;
      }
  }

  lemma OneUserRevokes(m: Marks, cs: set<Change>, stamp: Time, e: CachedRead, u: nat)
    requires StampedBy(m, stamp) && e.OfUsers? && u in e.users
    ensures var m', k := MarkAll(m, cs, stamp), UserAndType(u, e.objectType);
            && (e.begun < stamp && (exists c :: c in cs && c.user == u && c.objectType == e.objectType) ==>
                  Revoked(m', e))
            && (k in m.byUser && e.begun < m.byUser[k] ==> Revoked(m', e))
            && (k in m'.byUser && e.begun < m'.byUser[k] ==>
                  Revoked(m, e) || (e.begun < stamp && exists c :: c in cs && Touches(c, e)))
  {
    MarkAllFields(m, cs, stamp, e.objectType, 0, 0, u);
    if c :| c in cs && c.user == u && c.objectType == e.objectType {
      assert Touches(c, e);
    }
  }

  lemma MarkAllCovers(m: Marks, cs: set<Change>, c: Change, stamp: Time)
    requires c in cs && c.at <= stamp
    ensures Covered(MarkAll(m, cs, stamp), c)
  {
  }

  function ChangeSet(changes: seq<Change>): set<Change> {
    set c | c in changes
  }

  function Recent(changes: seq<Change>, cutoff: Time): set<Change> {
    set c | c in changes && c.at > cutoff
  }

  /** How many of the changes, which come newest first, are after the cutoff. */
  method CountRecent(changes: seq<Change>, cutoff: Time) returns (n: nat)
    requires Descending(changes)
    ensures n <= |changes|
    ensures forall i :: 0 <= i < |changes| ==> (changes[i].at > cutoff <==> i < n)
  {
    var idx := |changes| - 1;
    while idx >= 0
      invariant -1 <= idx < |changes|
      invariant forall i :: idx < i < |changes| ==> changes[i].at <= cutoff
    {
      if changes[idx].at > cutoff {
        break;
      }
      idx := idx - 1;
    }
    n := idx + 1;
  }

  class Controller {
    const queryTTL: int
    const iteratorTTL: int
    var record: Option<Record>
    var marks: Marks
    /** The changelog that the last pass read, the cutoff it used and the time it ended. */
    ghost var seen: seq<Change>
    ghost var since: Time
    ghost var ended: Time

    /** The record, if there is one, names the newest change seen. */
    ghost predicate Valid()
      reads this
    {
      && (forall c :: c in seen ==> c.at <= ended) && since <= Cutoff(ended) && StampedBy(marks, ended)
      && (record.Some? ==> queryTTL >= 0 && seen != [] && record.value.lastModified == seen[0].at)
    }

    /** Every change seen that was recent at the last pass is covered. */
    ghost predicate Covers()
      reads this
    {
      RecentCovered(marks, seen, since)
    }

    constructor (queryTTL: int, iteratorTTL: int, now: Time)
      ensures Valid() && Covers() && this.queryTTL == queryTTL && this.iteratorTTL == iteratorTTL
      ensures record == None && marks == Marks(None, map[], map[]) && seen == [] && ended == now
    {
      this.queryTTL, this.iteratorTTL := queryTTL, iteratorTTL;
      record, marks := None, Marks(None, map[], map[]);
      seen, since, ended := [], now - iteratorTTL, now;
    }

    /** The newest change that the record names, as a lookup at that time sees it. */
    function Known(now: Time): Time
      reads this
    {
      if record.Some? && now < record.value.expires then record.value.lastModified else BEGINNING
    }

    /** Iterators cached before this time are no longer in the cache. */
    function Cutoff(now: Time): Time {
      now - iteratorTTL
    }

    method InvalidateStore(now: Time)
      modifies this`marks
      ensures marks == old(marks).(storeWide := Some(now))
    {
      marks := marks.(storeWide := Some(now));
    }

    /** The marks of a change live as long as an iterator; a negative duration stores nothing. */
    method InvalidateChange(c: Change, stamp: Time)
      modifies this`marks
      ensures marks == if iteratorTTL < 0 then old(marks) else Mark(old(marks), c, stamp)
    {
      if iteratorTTL >= 0 {
        marks := marks.(byObject := marks.byObject[ObjectRelationOf(c) := stamp]);
        marks := marks.(byUser := marks.byUser[UserAndTypeOf(c) := stamp]);
      }
    }

    method InvalidateChanges(changes: seq<Change>, stamp: Time)
      requires changes != [] ==> iteratorTTL >= 0
      modifies this`marks
      ensures marks == MarkAll(old(marks), ChangeSet(changes), stamp)
    {
      ghost var done: set<Change> := {};
      var idx := |changes| - 1;
      assert marks == MarkAll(marks, {}, stamp);
      while idx >= 0
        invariant -1 <= idx < |changes| && done == ChangeSet(changes[idx + 1..])
        invariant marks == MarkAll(old(marks), done, stamp)
      {
        assert changes[idx..] == [changes[idx]] + changes[idx + 1..];
        MarkOneMore(old(marks), done, changes[idx], stamp);
        InvalidateChange(changes[idx], stamp);
        done := done + {changes[idx]};
        idx := idx - 1;
      }
      assert changes[0..] == changes;
    }

    /**
     The pass, with the clock readings it takes in order. `log` is the whole changelog at the time
     of the read, of which the pass sees the first page only.
     */
    method FindChangesAndInvalidate(read: Read, t0: Time, t1: Time, t2: Time, t3: Time, ghost log: seq<Change>)
      requires Valid() && ended <= t0 <= t1 <= t2 <= t3
      requires read.Page? ==> Descending(log) && FirstPage(log, read.changes)
      requires read.Page? ==> forall c :: c in log ==> BEGINNING < c.at <= t1
      modifies this
      ensures Valid() && ended == t3 && (read.Page? ==> seen == log && since == t2 - iteratorTTL)
      ensures read.TimedOut? ==> record == old(record) && marks == old(marks)
      ensures read.Failed? ==> record == old(record) && marks == old(marks).(storeWide := Some(t3))
      ensures read.Page? && queryTTL >= 0 ==> record == Some(Record(log[0].at, t1, t1 + Life(queryTTL)))
      ensures read.Page? && queryTTL < 0 ==> record == old(record)
      // everything recent is covered after the pass iff it finds a change newer than the one it knows, or
      // the marks already there cover the recent changes that were added
      ensures old(Covers()) && !read.Page? ==> Covers()
      ensures old(Covers()) && read.Page? && Appends(old(seen), log) ==>
                (Covers() <==>
                   FindsNew(old(record), log[0].at, t0) || RecentCovered(old(marks), Added(old(seen), log), since))
      // a pass without a new change marks nothing
      ensures read.Page? && !FindsNew(old(record), log[0].at, t0) ==> marks == old(marks)
      // a pass with one covers every recent change, on the page or beyond it
      ensures read.Page? && FindsNew(old(record), log[0].at, t0) ==> RecentCovered(marks, log, since)
      // and does so by marking the recent changes alone, unless the whole page is recent
      ensures read.Page? && FindsNew(old(record), log[0].at, t0) ==>
                marks == PassMarks(old(marks), read.changes, since, t3)
      // so it revokes, of the cached reads begun before, those that a recent change of the whole changelog
      // touches, and no other, unless the whole page is recent: then it revokes them all
      ensures read.Page? && FindsNew(old(record), log[0].at, t0) ==>
                RevokesExactly(old(marks), marks, log, read.changes, since, t3)
    {
      var known := Known(t0);
      ended := t3;
      match read
      case TimedOut =>
      case Failed =>
        InvalidateStore(t3);
      case Page(changes) =>
        seen, since := log, Cutoff(t2);
        assert log[0] == changes[0] && Descending(changes);
        if queryTTL >= 0 {
          record := Some(Record(changes[0].at, t1, t1 + Life(queryTTL)));
        }
        if changes[0].at <= known {
          if RecentCovered(old(marks), old(seen), old(since)) && Appends(old(seen), log) {
            AddedDecide(old(marks), old(seen), log, old(since), Cutoff(t2));
          }
          return;
        }
        assert changes[0] in log;
        InvalidateRecent(changes, Cutoff(t2), t3);
        PassCovers(old(marks), log, changes, Cutoff(t2), t3);
        PassIsExact(old(marks), log, changes, Cutoff(t2), t3);
    }

    method InvalidateRecent(changes: seq<Change>, cutoff: Time, stamp: Time)
      requires Descending(changes) && changes != [] && (changes[0].at > cutoff ==> iteratorTTL >= 0)
      modifies this`marks
      ensures marks == PassMarks(old(marks), changes, cutoff, stamp)
    {
      var n := CountRecent(changes, cutoff);
      if n == |changes| {
        AllRecent(marks, changes, cutoff, stamp);
        InvalidateStore(stamp);
      } else {
        SomeOld(marks, changes, n, cutoff, stamp);
        InvalidateChanges(changes[..n], stamp);
      }
    }
  }

  /** The whole store is marked when every change of the page is recent, else just the recent changes. */
  function PassMarks(before: Marks, page: seq<Change>, cutoff: Time, stamp: Time): Marks {
    if Recent(page, cutoff) == ChangeSet(page) then before.(storeWide := Some(stamp))
    else MarkAll(before, Recent(page, cutoff), stamp)
  }

  ghost predicate PassRevokes(log: seq<Change>, page: seq<Change>, cutoff: Time, stamp: Time, e: CachedRead) {
    && e.begun < stamp
    && ((forall c :: c in page ==> c.at > cutoff) || exists c :: c in log && c.at > cutoff && Touches(c, e))
  }

  ghost predicate RevokesExactly(before: Marks, after: Marks, log: seq<Change>, page: seq<Change>, cutoff: Time,
                                 stamp: Time) {
    forall e :: Revoked(after, e) <==> Revoked(before, e) || PassRevokes(log, page, cutoff, stamp, e)
  }

  lemma PassIsExact(before: Marks, log: seq<Change>, page: seq<Change>, cutoff: Time, stamp: Time)
    requires Descending(log) && FirstPage(log, page) && StampedBy(before, stamp)
    ensures StampedBy(PassMarks(before, page, cutoff, stamp), stamp)
    ensures RevokesExactly(before, PassMarks(before, page, cutoff, stamp), log, page, cutoff, stamp)
  {
    var recent := Recent(page, cutoff);
    assert recent == ChangeSet(page) <==> forall c :: c in page ==> c.at > cutoff by {
      if recent == ChangeSet(page) {
        assert forall c :: c in page ==> c in ChangeSet(page);
      }
    }
    forall e
      ensures Revoked(PassMarks(before, page, cutoff, stamp), e) <==>
                Revoked(before, e) || PassRevokes(log, page, cutoff, stamp, e)
    {
      if recent != ChangeSet(page) {
        MarkAllRevokes(before, recent, stamp, e);
        RecentOnPage(log, page, cutoff, e);
      }
    }
  }

  lemma RecentOnPage(log: seq<Change>, page: seq<Change>, cutoff: Time, e: CachedRead)
    requires Descending(log) && FirstPage(log, page) && Recent(page, cutoff) != ChangeSet(page)
    ensures (exists c :: c in log && c.at > cutoff && Touches(c, e)) <==>
              exists c :: c in Recent(page, cutoff) && Touches(c, e)
  {
    if c :| c in log && c.at > cutoff && Touches(c, e) {
      BeyondPageIsOld(log, page, cutoff, c);
    }
    if c :| c in Recent(page, cutoff) && Touches(c, e) {
      assert c in log;
    }
  }

  lemma AllRecent(before: Marks, page: seq<Change>, cutoff: Time, stamp: Time)
    requires forall i :: 0 <= i < |page| ==> page[i].at > cutoff
    ensures PassMarks(before, page, cutoff, stamp) == before.(storeWide := Some(stamp))
  {
  }

  lemma SomeOld(before: Marks, page: seq<Change>, n: nat, cutoff: Time, stamp: Time)
    requires n < |page| && forall i :: 0 <= i < |page| ==> (page[i].at > cutoff <==> i < n)
    ensures PassMarks(before, page, cutoff, stamp) == MarkAll(before, ChangeSet(page[..n]), stamp)
  {
    RecentPrefix(page, n, cutoff);
    assert page[n] in ChangeSet(page) - Recent(page, cutoff);
  }

  /** Changes beyond the page are no newer than its last change, so an old last change bounds them all. */
  lemma BeyondPageIsOld(log: seq<Change>, page: seq<Change>, cutoff: Time, c: Change)
    requires Descending(log) && FirstPage(log, page) && Recent(page, cutoff) != ChangeSet(page)
    requires c in log && c.at > cutoff
    ensures c in Recent(page, cutoff)
  {
    var i :| 0 <= i < |log| && log[i] == c;
    var o :| o in page && o.at <= cutoff;
    var n :| 0 <= n < |page| && page[n] == o;
    assert log[n] == page[n];
    assert page[i] == c;
  }

  lemma RecentPrefix(page: seq<Change>, n: nat, cutoff: Time)
    requires n <= |page| && forall i :: 0 <= i < |page| ==> (page[i].at > cutoff <==> i < n)
    ensures ChangeSet(page[..n]) == Recent(page, cutoff)
  {
    forall c | c in page && c.at > cutoff
      ensures c in page[..n]
    {
      var i :| 0 <= i < |page| && page[i] == c;
      assert page[..n][i] == c;
    }
  }

  /** Marks set from the first page cover the recent changes of the whole changelog. */
  lemma PassCovers(before: Marks, log: seq<Change>, page: seq<Change>, cutoff: Time, stamp: Time)
    requires Descending(log) && FirstPage(log, page) && forall c :: c in log ==> c.at <= stamp
    ensures RecentCovered(PassMarks(before, page, cutoff, stamp), log, cutoff)
  {
    if Recent(page, cutoff) != ChangeSet(page) {
      forall c | c in log && c.at > cutoff
        ensures Covered(MarkAll(before, Recent(page, cutoff), stamp), c)
      {
        BeyondPageIsOld(log, page, cutoff, c);
        MarkAllCovers(before, Recent(page, cutoff), c, stamp);
      }
    }
  }

  /** If what was seen is covered, what was added decides. */
  lemma AddedDecide(m: Marks, earlier: seq<Change>, log: seq<Change>, since: Time, cutoff: Time)
    requires Appends(earlier, log) && RecentCovered(m, earlier, since) && since <= cutoff
    ensures RecentCovered(m, log, cutoff) <==> RecentCovered(m, Added(earlier, log), cutoff)
  {
    assert log == Added(earlier, log) + earlier;
  }

  /** Stamps that grow are enough: a change stamped after all earlier ones is always found. */
  lemma LaterStampIsNew(c: Controller, log: seq<Change>, now: Time)
    requires c.Valid() && log != [] && log[0].at > BEGINNING && (c.seen != [] ==> log[0].at > c.seen[0].at)
    ensures log[0].at > c.Known(now)
  {
  }

  lemma MarksOfOne(first: Change, second: Change, stamp: Time)
    requires second.at <= stamp
    ensures Covered(MarkAll(Marks(None, map[], map[]), {first}, stamp), second) <==>
              ObjectRelationOf(second) == ObjectRelationOf(first) && UserAndTypeOf(second) == UserAndTypeOf(first)
  {
    assert ObjectKeys({first}) == {ObjectRelationOf(first)} && UserKeys({first}) == {UserAndTypeOf(first)};
  }

  lemma OnlyFirstIsRecent(first: Change, past: Change, cutoff: Time, stamp: Time)
    requires past.at <= cutoff < first.at
    ensures PassMarks(Marks(None, map[], map[]), [first, past], cutoff, stamp) ==
              MarkAll(Marks(None, map[], map[]), {first}, stamp)
  {
    assert Recent([first, past], cutoff) == {first} && past in ChangeSet([first, past]);
  }

  lemma TwoChanges(first: Change, past: Change)
    requires BEGINNING < past.at <= first.at
    ensures Descending([first, past]) && FirstPage([first, past], [first, past])
    ensures forall c :: c in [first, past] ==> BEGINNING < c.at <= first.at
  {
  }

  /** A first pass over one recent change and an older one. */
  method FirstPass(queryTTL: int, iteratorTTL: int, first: Change, past: Change, t: Time) returns (c: Controller)
    requires BEGINNING < past.at <= t - iteratorTTL < first.at <= t && 0 <= queryTTL
    ensures fresh(c) && c.Valid() && c.Covers() && c.queryTTL == queryTTL && c.iteratorTTL == iteratorTTL
    ensures c.seen == [first, past] && c.ended == t && c.marks == MarkAll(Marks(None, map[], map[]), {first}, t)
    ensures c.record == Some(Record(first.at, t, t + Life(queryTTL)))
  {
    c := new Controller(queryTTL, iteratorTTL, t);
    var page := [first, past];
    TwoChanges(first, past);
    c.FindChangesAndInvalidate(Page(page), t, t, t, t, page);
    OnlyFirstIsRecent(first, past, c.since, t);
  }

  lemma OneMoreChange(first: Change, second: Change, past: Change)
    requires BEGINNING < past.at <= first.at == second.at
    ensures var log := [second, first, past];
            && Descending(log) && FirstPage(log, log) && Appends([first, past], log)
            && Added([first, past], log) == [second] && forall c :: c in log ==> BEGINNING < c.at <= first.at
  {
    assert [second, first, past][1..] == [first, past];
  }

  lemma RevokedByOne(first: Change, stamp: Time)
    ensures forall e :: Revoked(MarkAll(Marks(None, map[], map[]), {first}, stamp), e) <==>
                          e.begun < stamp && Touches(first, e)
  {
    forall e
      ensures Revoked(MarkAll(Marks(None, map[], map[]), {first}, stamp), e) <==> e.begun < stamp && Touches(first, e)
    {
      MarkAllRevokes(Marks(None, map[], map[]), {first}, stamp, e);
    }
  }

  lemma OneRecent(m: Marks, c: Change, cutoff: Time)
    requires c.at > cutoff
    ensures RecentCovered(m, [c], cutoff) <==> Covered(m, c)
  {
    assert c in [c] && forall x :: x in [c] ==> x == c;
  }

  /**
   Two passes, the second over one more change with the stamp that the first pass recorded. The second pass
   marks nothing, so the change stays uncovered unless it shares both its keys with the first one.
   */
  method EqualStampIsMissed(queryTTL: int, iteratorTTL: int, first: Change, second: Change, past: Change,
                            t: Time, u: Time)
    returns (c: Controller)
    requires BEGINNING < past.at <= t - iteratorTTL && u - iteratorTTL < first.at == second.at <= t <= u
    requires u < t + Life(queryTTL)
    ensures fresh(c) && c.Valid() && c.seen == [second, first, past]
    ensures c.marks == MarkAll(Marks(None, map[], map[]), {first}, t)
    ensures c.Covers() <==> Covered(c.marks, second)
    ensures c.Covers() <==>
              && second.objectType == first.objectType && second.objectId == first.objectId
              && second.relation == first.relation && second.user == first.user
    // a read begun before both passes that only the second change touches is still served
    ensures forall e :: Revoked(c.marks, e) <==> e.begun < t && Touches(first, e)
  {
    c := FirstPass(queryTTL, iteratorTTL, first, past, t);
    ghost var m := c.marks;
    var log := [second, first, past];
    OneMoreChange(first, second, past);
    c.FindChangesAndInvalidate(Page(log), u, u, u, u, log);
    MarksOfOne(first, second, t);
    RevokedByOne(first, t);
    OneRecent(m, second, c.Cutoff(u));
  }
}
