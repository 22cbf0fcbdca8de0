/**
 The sync activity log: every durable event in its own file, an incrementally maintained
 index of the newest hundred, and one in-memory progress event. Reading the index must
 agree with sorting, deduplicating and truncating the whole log.
 */
module Activity {
  import opened Prelude

  const LATEST_EVENTS_LIMIT := 100

  datatype SyncEvent = SyncEvent(
    id: string,
    relationshipId: string,
    timestamp: nat,
    eventType: string,
    payload: string)

  predicate IsDurable(event: SyncEvent) {
    event.eventType != "progress"
  }

  // ---------------------------------------------------------------------------------------
  // Newest first: timestamp descending, then id descending
  // ---------------------------------------------------------------------------------------

  /** Lexicographic order on ids. */
  predicate StringLe(a: string, b: string) {
    a == [] || (b != [] && (a[0] < b[0] || (a[0] == b[0] && StringLe(a[1..], b[1..]))))
  }

  lemma {:induction false} StringLeTotal(a: string, b: string)
    ensures StringLe(a, b) || StringLe(b, a)
    ensures StringLe(a, b) && StringLe(b, a) ==> a == b
  {
    if a != [] && b != [] {
      StringLeTotal(a[1..], b[1..]);
      assert a == [a[0]] + a[1..] && b == [b[0]] + b[1..];
    }
  }

  lemma {:induction false} StringLeTransitive(a: string, b: string, c: string)
    requires StringLe(a, b) && StringLe(b, c)
    ensures StringLe(a, c)
  {
    if a != [] && a[0] == b[0] == c[0] {
      StringLeTransitive(a[1..], b[1..], c[1..]);
    }
  }

  /** The strings first differ at `k`, and there the first has the smaller character. */
  ghost predicate SmallerAt(a: string, b: string, k: nat) {
    k < |a| && k < |b| && a[..k] == b[..k] && a[k] < b[k]
  }

  lemma {:induction false} SmallerIsLess(a: string, b: string, k: nat)
    requires SmallerAt(a, b, k)
    ensures StringLe(a, b)
  {
    if k > 0 {
      assert a[0] == a[..k][0] == b[..k][0] == b[0];
      assert a[1..][..k - 1] == a[..k][1..] && b[1..][..k - 1] == b[..k][1..];
      SmallerIsLess(a[1..], b[1..], k - 1);
    }
  }

  lemma {:induction false} PrefixIsLess(a: string, b: string)
    requires IsPrefix(a, b)
    ensures StringLe(a, b)
  {
    if a != [] {
      assert b[0] == b[..|a|][0];
      assert b[1..][..|a| - 1] == b[..|a|][1..];
      PrefixIsLess(a[1..], b[1..]);
    }
  }

  lemma {:induction false} LessIsSmallerOrPrefix(a: string, b: string)
    requires StringLe(a, b)
    ensures IsPrefix(a, b) || exists k: nat :: SmallerAt(a, b, k)
  {
    if a == [] {
    } else if a[0] < b[0] {
      assert SmallerAt(a, b, 0);
    } else {
      LessIsSmallerOrPrefix(a[1..], b[1..]);
      assert a == [b[0]] + a[1..];
      if IsPrefix(a[1..], b[1..]) {
        assert b[..|a|] == [b[0]] + b[1..][..|a| - 1];
      } else {
        var k: nat :| SmallerAt(a[1..], b[1..], k);
        assert a[..k + 1] == [a[0]] + a[1..][..k] && b[..k + 1] == [b[0]] + b[1..][..k];
        assert SmallerAt(a, b, k + 1);
      }
    }
  }

  /** The order of the library: one string is a prefix of the other, or smaller where they first differ. */
  lemma {:induction false} StringLeIsLexicographic(a: string, b: string)
    ensures StringLe(a, b) <==> IsPrefix(a, b) || exists k: nat :: SmallerAt(a, b, k)
  {
    if StringLe(a, b) {
      LessIsSmallerOrPrefix(a, b);
    }
    if IsPrefix(a, b) {
      PrefixIsLess(a, b);
    }
    if k: nat :| SmallerAt(a, b, k) {
      SmallerIsLess(a, b, k);
    }
  }

  /** `a` may stand before `b` in a newest-first list. */
  predicate NotOlder(a: SyncEvent, b: SyncEvent) {
    a.timestamp > b.timestamp || (a.timestamp == b.timestamp && StringLe(b.id, a.id))
  }

  lemma {:induction false} NotOlderTotal(a: SyncEvent, b: SyncEvent)
    ensures NotOlder(a, b) || NotOlder(b, a)
  {
    StringLeTotal(a.id, b.id);
  }

  lemma {:induction false} NotOlderTransitive(a: SyncEvent, b: SyncEvent, c: SyncEvent)
    requires NotOlder(a, b) && NotOlder(b, c)
    ensures NotOlder(a, c)
  {
    if a.timestamp == c.timestamp {
      StringLeTransitive(c.id, b.id, a.id);
    }
  }

  ghost predicate NewestFirst(s: seq<SyncEvent>) {
    forall i, j :: 0 <= i < j < |s| ==> NotOlder(s[i], s[j])
  }

  // ---------------------------------------------------------------------------------------
  // The stable sort of the standard library, and what pins it down
  // ---------------------------------------------------------------------------------------

  /** Put an event behind everything that may stand before it. */
  function Insert(event: SyncEvent, sorted: seq<SyncEvent>): seq<SyncEvent> {
    if sorted == [] then [event]
    else if NotOlder(sorted[0], event) then [sorted[0]] + Insert(event, sorted[1..])
    else [event] + sorted
  }

  /** `sort_by`: equal events keep their order, since each goes in behind its equals. */
  function Sort(events: seq<SyncEvent>): seq<SyncEvent> {
    if events == [] then [] else Insert(events[|events| - 1], Sort(events[..|events| - 1]))
  }

  function Equals(like: SyncEvent, s: seq<SyncEvent>): seq<SyncEvent> {
    if s == [] then []
    else (if NotOlder(like, s[0]) && NotOlder(s[0], like) then [s[0]] else []) + Equals(like, s[1..])
  }

  lemma {:induction false} InsertKeepsEvents(event: SyncEvent, s: seq<SyncEvent>)
    ensures multiset(Insert(event, s)) == multiset(s) + multiset{event}
  {
    if s != [] {
      assert s == [s[0]] + s[1..];
      if NotOlder(s[0], event) {
        InsertKeepsEvents(event, s[1..]);
      }
    }
  }

  lemma {:induction false} InsertKeepsOrder(event: SyncEvent, s: seq<SyncEvent>)
    requires NewestFirst(s)
    ensures NewestFirst(Insert(event, s))
    ensures multiset(Insert(event, s)) == multiset(s) + multiset{event}
  {
    InsertKeepsEvents(event, s);
    if s == [] {
    } else if NotOlder(s[0], event) {
      InsertKeepsOrder(event, s[1..]);
      var tail := Insert(event, s[1..]);
      forall j | 0 <= j < |tail| ensures NotOlder(s[0], tail[j]) {
        assert tail[j] in multiset(tail);
        assert tail[j] == event || tail[j] in s[1..];
      }
    } else {
      NotOlderTotal(event, s[0]);
      forall j | 0 <= j < |s| ensures NotOlder(event, s[j]) {
        if j > 0 {
          NotOlderTransitive(event, s[0], s[j]);
        }
      }
    }
  }

  lemma {:induction false} InsertIsStable(event: SyncEvent, s: seq<SyncEvent>, like: SyncEvent)
    requires NewestFirst(s)
    ensures Equals(like, Insert(event, s)) ==
            Equals(like, s) + (if NotOlder(like, event) && NotOlder(event, like) then [event] else [])
  {
    if s == [] {
      assert [event][1..] == [];
    } else if NotOlder(s[0], event) {
      InsertIsStable(event, s[1..], like);
      assert ([s[0]] + Insert(event, s[1..]))[1..] == Insert(event, s[1..]);
    } else {
      assert ([event] + s)[1..] == s;
      if NotOlder(like, event) && NotOlder(event, like) {
        forall j | 0 <= j < |s| ensures !NotOlder(s[j], event) {
          if j > 0 && NotOlder(s[j], event) {
            NotOlderTransitive(s[0], s[j], event);
          }
        }
        NothingAsNew(event, s, like);
      }
    }
  }

  lemma {:induction false} NothingAsNew(event: SyncEvent, s: seq<SyncEvent>, like: SyncEvent)
    requires forall j :: 0 <= j < |s| ==> !NotOlder(s[j], event)
    requires NotOlder(like, event)
    ensures Equals(like, s) == []
  {
    if s != [] {
      if NotOlder(s[0], like) {
        NotOlderTransitive(s[0], like, event);
      }
      NothingAsNew(event, s[1..], like);
    }
  }

  /** The sort puts the newest first, loses and invents nothing, and never reorders equals. */
  lemma {:induction false} SortIsStableSort(events: seq<SyncEvent>, like: SyncEvent)
    ensures NewestFirst(Sort(events))
    ensures multiset(Sort(events)) == multiset(events)
    ensures Equals(like, Sort(events)) == Equals(like, events)
  {
    if events != [] {
      var n := |events| - 1;
      assert events == events[..n] + [events[n]];
      SortIsStableSort(events[..n], like);
      InsertKeepsOrder(events[n], Sort(events[..n]));
      InsertIsStable(events[n], Sort(events[..n]), like);
      EqualsSnoc(like, events[..n], events[n]);
    }
  }

  lemma {:induction false} EqualsSnoc(like: SyncEvent, s: seq<SyncEvent>, e: SyncEvent)
    ensures Equals(like, s + [e]) == Equals(like, s) + Equals(like, [e])
  {
    if s == [] {
      assert s + [e] == [e];
    } else {
      EqualsSnoc(like, s[1..], e);
      assert (s + [e])[0] == s[0] && (s + [e])[1..] == s[1..] + [e];
    }
  }

  // ---------------------------------------------------------------------------------------
  // Deduplication by id and truncation
  // ---------------------------------------------------------------------------------------

  function WithoutId(s: seq<SyncEvent>, id: string): seq<SyncEvent> {
    if s == [] then []
    else if s[0].id == id then WithoutId(s[1..], id)
    else [s[0]] + WithoutId(s[1..], id)
  }

  /** Keep the first event of every id. */
  function Dedupe(s: seq<SyncEvent>): seq<SyncEvent>
    decreases |s|
  {
    if s == [] then [] else [s[0]] + WithoutId(Dedupe(s[1..]), s[0].id)
  }

  function Take<T>(s: seq<T>, n: nat): seq<T> {
    if |s| <= n then s else s[..n]
  }

  /** What a reader of the log should see of these events. */
  function Latest(events: seq<SyncEvent>, limit: nat): seq<SyncEvent> {
    Take(Dedupe(Sort(events)), limit)
  }

  function Durable(events: seq<SyncEvent>): seq<SyncEvent> {
    if events == [] then []
    else (if IsDurable(events[0]) then [events[0]] else []) + Durable(events[1..])
  }

  ghost predicate DistinctIds(s: seq<SyncEvent>) {
    forall i, j :: 0 <= i < j < |s| ==> s[i].id != s[j].id
  }

  lemma {:induction false} WithoutIdMembers(s: seq<SyncEvent>, id: string, e: SyncEvent)
    ensures e in WithoutId(s, id) <==> e in s && e.id != id
  {
    if s != [] {
      WithoutIdMembers(s[1..], id, e);
      assert e in s <==> e == s[0] || e in s[1..];
    }
  }

  lemma {:induction false} WithoutIdKeepsShape(s: seq<SyncEvent>, id: string)
    requires NewestFirst(s) && DistinctIds(s)
    ensures NewestFirst(WithoutId(s, id)) && DistinctIds(WithoutId(s, id))
  {
    if s != [] {
      WithoutIdKeepsShape(s[1..], id);
      var rest := WithoutId(s[1..], id);
      forall j | 0 <= j < |rest| ensures NotOlder(s[0], rest[j]) && s[0].id != rest[j].id {
        WithoutIdMembers(s[1..], id, rest[j]);
        var k :| 0 <= k < |s[1..]| && s[1..][k] == rest[j];
        assert s[k + 1] == rest[j];
      }
    }
  }

  lemma {:induction false} DedupeShape(s: seq<SyncEvent>)
    requires NewestFirst(s)
    ensures NewestFirst(Dedupe(s)) && DistinctIds(Dedupe(s))
    ensures forall e :: e in Dedupe(s) ==> e in s
    decreases |s|
  {
    if s != [] {
      DedupeShape(s[1..]);
      var tail := Dedupe(s[1..]);
      WithoutIdKeepsShape(tail, s[0].id);
      var rest := WithoutId(tail, s[0].id);
      forall e | e in rest ensures e in s[1..] && e.id != s[0].id {
        WithoutIdMembers(tail, s[0].id, e);
      }
      forall j | 0 <= j < |rest| ensures NotOlder(s[0], rest[j]) && rest[j].id != s[0].id {
        assert rest[j] in s[1..];
      }
    }
  }

  lemma {:induction false} WithoutAbsentId(s: seq<SyncEvent>, id: string)
    requires forall i :: 0 <= i < |s| ==> s[i].id != id
    ensures WithoutId(s, id) == s
  {
    if s != [] {
      WithoutAbsentId(s[1..], id);
    }
  }

  lemma {:induction false} DedupeOfDistinct(s: seq<SyncEvent>)
    requires DistinctIds(s)
    ensures Dedupe(s) == s
    decreases |s|
  {
    if s != [] {
      DedupeOfDistinct(s[1..]);
      WithoutAbsentId(s[1..], s[0].id);
    }
  }

  lemma {:induction false} SortOfSorted(s: seq<SyncEvent>)
    requires NewestFirst(s)
    ensures Sort(s) == s
  {
    if s != [] {
      var n := |s| - 1;
      SortOfSorted(s[..n]);
      InsertBehindAll(s[n], s[..n]);
    }
  }

  lemma {:induction false} InsertBehindAll(event: SyncEvent, s: seq<SyncEvent>)
    requires forall i :: 0 <= i < |s| ==> NotOlder(s[i], event)
    ensures Insert(event, s) == s + [event]
  {
    if s != [] {
      InsertBehindAll(event, s[1..]);
    }
  }

  /** Insertion into a newest-first list without repeated ids. */
  function Upsert(event: SyncEvent, latest: seq<SyncEvent>): seq<SyncEvent> {
    if latest == [] then [event]
    else if NotOlder(latest[0], event) then
      if latest[0].id == event.id then latest else [latest[0]] + Upsert(event, latest[1..])
    else [event] + WithoutId(latest, event.id)
  }

  lemma {:induction false} WithoutIdTwice(s: seq<SyncEvent>, a: string, b: string)
    ensures WithoutId(WithoutId(s, a), b) == WithoutId(WithoutId(s, b), a)
    ensures WithoutId(WithoutId(s, a), a) == WithoutId(s, a)
  {
    if s != [] {
      WithoutIdTwice(s[1..], a, b);
    }
  }

  lemma {:induction false} WithoutIdOfUpsert(event: SyncEvent, s: seq<SyncEvent>, id: string)
    requires NewestFirst(s) && DistinctIds(s)
    ensures WithoutId(Upsert(event, s), id) ==
            if event.id == id then WithoutId(s, id) else Upsert(event, WithoutId(s, id))
  {
    if s != [] {
      if NotOlder(s[0], event) {
        if s[0].id != event.id {
          WithoutIdOfUpsert(event, s[1..], id);
          if s[0].id == id {
            WithoutAbsentId(s[1..], id);
          }
        } else {
          WithoutAbsentId(s[1..], s[0].id);
        }
      } else {
        WithoutIdTwice(s, event.id, id);
        forall e | e in WithoutId(s, id) ensures e in s {
          WithoutIdMembers(s, id, e);
        }
        UpsertInFront(event, WithoutId(s, id), s);
      }
    }
  }

  /** An event newer than everything in `s` goes in front of any part of it. */
  lemma {:induction false} UpsertInFront(event: SyncEvent, part: seq<SyncEvent>, s: seq<SyncEvent>)
    requires NewestFirst(s) && s != [] && !NotOlder(s[0], event)
    requires forall e :: e in part ==> e in s
    ensures Upsert(event, part) == [event] + WithoutId(part, event.id)
  {
    if part != [] {
      assert part[0] in s;
      if NotOlder(part[0], event) {
        var k :| 0 <= k < |s| && s[k] == part[0];
        if k > 0 {
          NotOlderTransitive(s[0], part[0], event);
        }
      }
    }
  }

  /** Sorting one more event in and deduplicating again is an upsert. */
  lemma {:induction false} DedupeOfInsert(event: SyncEvent, s: seq<SyncEvent>)
    requires NewestFirst(s)
    ensures Dedupe(Insert(event, s)) == Upsert(event, Dedupe(s))
    decreases |s|
  {
    if s == [] {
      assert [event][1..] == [];
    } else {
      var tail := Dedupe(s[1..]);
      DedupeShape(s[1..]);
      if NotOlder(s[0], event) {
        assert ([s[0]] + Insert(event, s[1..]))[1..] == Insert(event, s[1..]);
        DedupeOfInsert(event, s[1..]);
        WithoutIdOfUpsert(event, tail, s[0].id);
        assert ([s[0]] + WithoutId(tail, s[0].id))[1..] == WithoutId(tail, s[0].id);
      } else {
        assert ([event] + s)[1..] == s;
      }
    }
  }

  lemma {:induction false} LatestSnoc(events: seq<SyncEvent>, event: SyncEvent)
    ensures Dedupe(Sort(events + [event])) == Upsert(event, Dedupe(Sort(events)))
  {
    assert (events + [event])[..|events|] == events;
    SortIsStableSort(events, event);
    DedupeOfInsert(event, Sort(events));
  }

  lemma {:induction false} TakeOfWithoutId(s: seq<SyncEvent>, id: string, n: nat)
    requires DistinctIds(s)
    ensures Take(WithoutId(s, id), n) == Take(WithoutId(Take(s, n + 1), id), n)
  {
    if s != [] {
      var cut := Take(s, n + 1);
      TakeTail(s, n + 1);
      assert cut[0] == s[0] && cut[1..] == Take(s[1..], n);
      if s[0].id == id {
        WithoutAbsentId(s[1..], id);
        WithoutAbsentId(cut[1..], id);
      } else if n > 0 {
        TakeOfWithoutId(s[1..], id, n - 1);
        TakeTail(WithoutId(s, id), n);
        TakeTail(WithoutId(cut, id), n);
        assert WithoutId(s, id)[1..] == WithoutId(s[1..], id);
        assert WithoutId(cut, id)[1..] == WithoutId(cut[1..], id);
      }
    }
  }

  /** What falls off the end of the index can never come back into the newest `n`. */
  lemma {:induction false} UpsertOfTruncated(event: SyncEvent, latest: seq<SyncEvent>, n: nat)
    requires DistinctIds(latest)
    ensures Take(Upsert(event, Take(latest, n)), n) == Take(Upsert(event, latest), n)
  {
    if latest == [] || n == 0 {
    } else {
      var cut := Take(latest, n);
      TakeTail(latest, n);
      assert cut[0] == latest[0] && cut[1..] == Take(latest[1..], n - 1);
      TakeTail(Upsert(event, cut), n);
      TakeTail(Upsert(event, latest), n);
      if !NotOlder(latest[0], event) {
        TakeOfWithoutId(latest, event.id, n - 1);
      } else if latest[0].id != event.id {
        UpsertOfTruncated(event, latest[1..], n - 1);
        assert Upsert(event, cut)[1..] == Upsert(event, cut[1..]);
        assert Upsert(event, latest)[1..] == Upsert(event, latest[1..]);
      }
    }
  }

  lemma {:induction false} TakeTail<T>(s: seq<T>, n: nat)
    requires s != [] && n > 0
    ensures Take(s, n) == [s[0]] + Take(s[1..], n - 1)
  {
  }

  lemma {:induction false} TakeTwice<T>(s: seq<T>, m: nat, n: nat)
    requires m <= n
    ensures Take(Take(s, n), m) == Take(s, m)
  {
  }

  /** Truncating before one more event and a shorter reading loses nothing. */
  lemma {:induction false} LatestOfTruncated(events: seq<SyncEvent>, event: SyncEvent, cap: nat, limit: nat)
    requires limit <= cap
    ensures Latest(Latest(events, cap) + [event], limit) == Latest(events + [event], limit)
  {
    var all := Dedupe(Sort(events));
    SortIsStableSort(events, event);
    DedupeShape(Sort(events));
    var kept := Take(all, cap);
    LatestIsFixed(events, cap);
    LatestSnoc(kept, event);
    LatestSnoc(events, event);
    UpsertOfTruncated(event, all, cap);
    TakeTwice(Upsert(event, kept), limit, cap);
    TakeTwice(Upsert(event, all), limit, cap);
  }

  lemma {:induction false} LatestIsFixed(events: seq<SyncEvent>, cap: nat)
    ensures var kept := Latest(events, cap);
            NewestFirst(kept) && DistinctIds(kept) && Dedupe(Sort(kept)) == kept
    ensures forall e :: e in Latest(events, cap) ==> e in events
  {
    var kept := Latest(events, cap);
    forall e | e in kept ensures e in events {
      SortIsStableSort(events, e);
      DedupeShape(Sort(events));
      assert e in Sort(events);
      assert e in multiset(Sort(events));
    }
    if events != [] {
      SortIsStableSort(events, events[0]);
    }
    DedupeShape(Sort(events));
    SortOfSorted(kept);
    DedupeOfDistinct(kept);
  }

  // ---------------------------------------------------------------------------------------
  // sort_dedupe_truncate and the log itself
  // ---------------------------------------------------------------------------------------

  function Ids(s: seq<SyncEvent>): set<string> {
    set e | e in s :: e.id
  }

  lemma {:induction false} IdsOfTail(s: seq<SyncEvent>, id: string)
    requires s != []
    ensures id in Ids(s) <==> id == s[0].id || id in Ids(s[1..])
  {
    if id in Ids(s) {
      var x :| x in s && x.id == id;
      assert x == s[0] || x in s[1..];
    }
    if id in Ids(s[1..]) {
      var x :| x in s[1..] && x.id == id;
      assert x in s;
    }
    assert s[0] in s;
  }

  lemma {:induction false} DedupeSnoc(s: seq<SyncEvent>, e: SyncEvent)
    ensures Dedupe(s + [e]) == Dedupe(s) + (if e.id in Ids(s) then [] else [e])
    decreases |s|
  {
    if s == [] {
      assert s + [e] == [e] && [e][1..] == [];
    } else {
      assert (s + [e])[0] == s[0] && (s + [e])[1..] == s[1..] + [e];
      DedupeSnoc(s[1..], e);
      IdsOfTail(s, e.id);
      var last := if e.id in Ids(s[1..]) then [] else [e];
      WithoutIdAppend(Dedupe(s[1..]), last, s[0].id);
      assert [e][1..] == [];
      assert WithoutId(last, s[0].id) == if e.id in Ids(s) then [] else [e];
    }
  }

  lemma {:induction false} WithoutIdAppend(a: seq<SyncEvent>, b: seq<SyncEvent>, id: string)
    ensures WithoutId(a + b, id) == WithoutId(a, id) + WithoutId(b, id)
  {
    if a == [] {
      assert a + b == b;
    } else {
      assert (a + b)[0] == a[0] && (a + b)[1..] == a[1..] + b;
      WithoutIdAppend(a[1..], b, id);
      var front, back := WithoutId(a[1..], id), WithoutId(b, id);
      assert [a[0]] + (front + back) == ([a[0]] + front) + back;
    }
  }

  /** The `seen_ids` pass: keep an event when its id is new. */
  method RetainUnseen(events: seq<SyncEvent>) returns (kept: seq<SyncEvent>)
    ensures kept == Dedupe(events)
  {
    var seenIds: set<string> := {};
    kept := [];
    for n := 0 to |events|
      invariant seenIds == Ids(events[..n])
      invariant kept == Dedupe(events[..n])
    {
      assert events[..n + 1] == events[..n] + [events[n]];
      DedupeSnoc(events[..n], events[n]);
      if events[n].id !in seenIds {
        kept := kept + [events[n]];
      }
      seenIds := seenIds + {events[n].id};
    }
    assert events[..|events|] == events;
  }

  /** `sort_dedupe_truncate`: the library sort, the `seen_ids` pass, the cut. */
  method SortDedupeTruncate(events: seq<SyncEvent>, limit: nat) returns (latest: seq<SyncEvent>)
    ensures latest == Latest(events, limit)
  {
    var sorted := Sort(events);
    latest := RetainUnseen(sorted);
    latest := Take(latest, limit);
  }

  // ---------------------------------------------------------------------------------------
  // What is stored: the event files, the index file, the progress slot
  // ---------------------------------------------------------------------------------------

  function ShortId(id: string): string {
    if |id| < 8 then id else id[..8]
  }

  function FileName(event: SyncEvent): string {
    Decimal(event.timestamp) + "-" + ShortId(event.id) + ".json"
  }

  /** The event files of one relationship in descending order of their names; a name is stored once. */
  function Filed(event: SyncEvent, files: seq<SyncEvent>): seq<SyncEvent> {
    if files == [] then [event]
    else if FileName(files[0]) == FileName(event) then [event] + files[1..]
    else if StringLe(FileName(event), FileName(files[0])) then [files[0]] + Filed(event, files[1..])
    else [event] + files
  }

  /** The log of one relationship. */
  datatype Log = Log(files: seq<SyncEvent>, index: Option<seq<SyncEvent>>, progress: Option<SyncEvent>)

  const EMPTY_LOG := Log([], None, None)

  function Pending(progress: Option<SyncEvent>): seq<SyncEvent> {
    if progress.Some? then [progress.value] else []
  }

  function Logged(log: Log, event: SyncEvent): Log {
    if !IsDurable(event) then
      log.(progress := Some(event))
    else
      var known := if log.index.Some? then log.index.value else [];
      Log(Filed(event, log.files), Some(Latest(Durable(known + [event]), LATEST_EVENTS_LIMIT)), None)
  }

  /** `get_events`: what it returns and the log it leaves, which differs only by a backfilled index. */
  function Read(log: Log, limit: nat): (seq<SyncEvent>, Log) {
    if limit == 0 then ([], log)
    else if log.index.Some? then
      (Latest(Durable(log.index.value) + Pending(log.progress), limit), log)
    else if log.files == [] then
      (Latest(Pending(log.progress), limit), log)
    else
      var candidates := Durable(Take(log.files, 2 * limit + 10));
      var events := Latest(Dedupe(Pending(log.progress) + candidates), limit);
      (events, log.(index := Some(events)))
  }

  /** `SyncActivityLog`, for all relationships. */
  class SyncActivityLog {
    var files: map<string, seq<SyncEvent>>
    var indexes: map<string, seq<SyncEvent>>
    var latestProgress: map<string, SyncEvent>

    constructor ()
      ensures forall id :: LogOf(id) == EMPTY_LOG
    {
      files, indexes, latestProgress := map[], map[], map[];
    }

    function LogOf(relationshipId: string): Log
      reads this
    {
      Log(if relationshipId in files then files[relationshipId] else [],
          Get(indexes, relationshipId),
          Get(latestProgress, relationshipId))
    }

    method LogEvent(event: SyncEvent)
      modifies this
      ensures LogOf(event.relationshipId) == Logged(old(LogOf(event.relationshipId)), event)
      ensures forall id :: id != event.relationshipId ==> LogOf(id) == old(LogOf(id))
    {
      var id := event.relationshipId;
      if event.eventType == "progress" {
        latestProgress := latestProgress[id := event];
        return;
      }
      files := files[id := Filed(event, if id in files then files[id] else [])];
      UpdateLatestEventsIndex(event);
      latestProgress := latestProgress - {id};
    }

    method UpdateLatestEventsIndex(event: SyncEvent)
      modifies this`indexes
      ensures var known := if event.relationshipId in old(indexes) then old(indexes)[event.relationshipId] else [];
              indexes == old(indexes)[event.relationshipId := Latest(Durable(known + [event]), LATEST_EVENTS_LIMIT)]
    {
      var events := if event.relationshipId in indexes then indexes[event.relationshipId] else [];
      events := events + [event];
      events := RetainDurable(events);
      events := SortDedupeTruncate(events, LATEST_EVENTS_LIMIT);
      indexes := indexes[event.relationshipId := events];
    }

    method GetEvents(relationshipId: string, limit: nat) returns (events: seq<SyncEvent>)
      modifies this`indexes
      ensures events == Read(old(LogOf(relationshipId)), limit).0
      ensures LogOf(relationshipId) == Read(old(LogOf(relationshipId)), limit).1
      ensures forall id :: id != relationshipId ==> LogOf(id) == old(LogOf(id))
    {
      if limit == 0 {
        return [];
      }
      var pending := Pending(Get(latestProgress, relationshipId));
      if relationshipId in indexes {
        events := RetainDurable(indexes[relationshipId]);
        events := SortDedupeTruncate(events + pending, limit);
        return;
      }
      var entries := if relationshipId in files then files[relationshipId] else [];
      if entries == [] {
        events := SortDedupeTruncate(pending, limit);
        return;
      }
      var candidates := RetainDurable(Take(entries, 2 * limit + 10));
      events := RetainUnseen(pending + candidates);
      events := SortDedupeTruncate(events, limit);
      indexes := indexes[relationshipId := events];
    }
  }

  method RetainDurable(events: seq<SyncEvent>) returns (kept: seq<SyncEvent>)
    ensures kept == Durable(events)
  {
    kept := [];
    for n := 0 to |events|
      invariant kept == Durable(events[..n])
    {
      assert events[..n + 1] == events[..n] + [events[n]];
      DurableAppend(events[..n], [events[n]]);
      if IsDurable(events[n]) {
        kept := kept + [events[n]];
      }
    }
    assert events[..|events|] == events;
  }

  lemma {:induction false} DurableAppend(a: seq<SyncEvent>, b: seq<SyncEvent>)
    ensures Durable(a + b) == Durable(a) + Durable(b)
  {
    if a == [] {
      assert a + b == b;
    } else {
      assert (a + b)[0] == a[0] && (a + b)[1..] == a[1..] + b;
      DurableAppend(a[1..], b);
      var head := if IsDurable(a[0]) then [a[0]] else [];
      assert head + (Durable(a[1..]) + Durable(b)) == (head + Durable(a[1..])) + Durable(b);
    }
  }

  lemma {:induction false} DurableOfDurable(s: seq<SyncEvent>)
    requires forall e :: e in s ==> IsDurable(e)
    ensures Durable(s) == s
  {
    if s != [] {
      DurableOfDurable(s[1..]);
    }
  }

  lemma {:induction false} DurableMembers(s: seq<SyncEvent>, e: SyncEvent)
    ensures e in Durable(s) <==> e in s && IsDurable(e)
  {
    if s != [] {
      DurableMembers(s[1..], e);
      assert e in s <==> e == s[0] || e in s[1..];
    }
  }

  // ---------------------------------------------------------------------------------------
  // The index agrees with the full log
  // ---------------------------------------------------------------------------------------

  /** The log of a relationship after these events, from empty. */
  function LogAfter(events: seq<SyncEvent>): Log {
    if events == [] then EMPTY_LOG
    else Logged(LogAfter(events[..|events| - 1]), events[|events| - 1])
  }

  /** The progress event still pending: the last event, if it is one. */
  function PendingAfter(events: seq<SyncEvent>): Option<SyncEvent> {
    if events != [] && !IsDurable(events[|events| - 1]) then Some(events[|events| - 1]) else None
  }

  /** One durable event more, and the index is still the newest hundred of everything durable. */
  lemma {:induction false} LoggedKeepsIndex(durable: seq<SyncEvent>, event: SyncEvent, known: seq<SyncEvent>)
    requires IsDurable(event) && forall e :: e in durable ==> IsDurable(e)
    requires known == Latest(durable, LATEST_EVENTS_LIMIT)
    ensures Latest(Durable(known + [event]), LATEST_EVENTS_LIMIT) == Latest(durable + [event], LATEST_EVENTS_LIMIT)
  {
    LatestIsFixed(durable, LATEST_EVENTS_LIMIT);
    DurableOfDurable(known + [event]);
    LatestOfTruncated(durable, event, LATEST_EVENTS_LIMIT, LATEST_EVENTS_LIMIT);
  }

  lemma {:induction false} DurableSnoc(events: seq<SyncEvent>, event: SyncEvent)
    ensures Durable(events + [event]) == if IsDurable(event) then Durable(events) + [event] else Durable(events)
    ensures forall e :: e in Durable(events) ==> IsDurable(e)
  {
    DurableAppend(events, [event]);
    assert [event][1..] == [];
    forall e | e in Durable(events) ensures IsDurable(e) {
      DurableMembers(events, e);
    }
  }

  /** The index holds the newest hundred of `durable`. */
  ghost predicate Indexes(log: Log, durable: seq<SyncEvent>) {
    log.index == (if durable == [] then None else Some(Latest(durable, LATEST_EVENTS_LIMIT))) &&
    (log.files == [] <==> durable == [])
  }

  lemma {:induction false} LoggedIndexes(log: Log, durable: seq<SyncEvent>, event: SyncEvent)
    requires Indexes(log, durable) && forall e :: e in durable ==> IsDurable(e)
    ensures Indexes(Logged(log, event), if IsDurable(event) then durable + [event] else durable)
  {
    if IsDurable(event) {
      var known := if log.index.Some? then log.index.value else [];
      assert known == Latest(durable, LATEST_EVENTS_LIMIT) by {
        assert Latest([], LATEST_EVENTS_LIMIT) == [];
      }
      LoggedKeepsIndex(durable, event, known);
    }
  }

  lemma {:induction false} LogAfterShape(events: seq<SyncEvent>)
    ensures LogAfter(events).progress == PendingAfter(events)
    ensures Indexes(LogAfter(events), Durable(events))
  {
    if events != [] {
      var n := |events| - 1;
      assert events == events[..n] + [events[n]];
      LogAfterShape(events[..n]);
      DurableSnoc(events[..n], events[n]);
      LoggedIndexes(LogAfter(events[..n]), Durable(events[..n]), events[n]);
    }
  }

  /**
   Logged from empty, repeated ids or not, a reading of at most a hundred events is exactly
   the newest of everything durable that was ever logged plus the pending progress event.
   */
  lemma {:induction false} IndexAgreesWithLog(events: seq<SyncEvent>, limit: nat)
    requires limit <= LATEST_EVENTS_LIMIT
    ensures Read(LogAfter(events), limit).0 == Latest(Durable(events) + Pending(PendingAfter(events)), limit)
    ensures Read(LogAfter(events), limit).1 == LogAfter(events)
  {
    LogAfterShape(events);
    var durable := Durable(events);
    var pending := Pending(PendingAfter(events));
    if limit > 0 && durable != [] {
      var known := Latest(durable, LATEST_EVENTS_LIMIT);
      LatestIsFixed(durable, LATEST_EVENTS_LIMIT);
      forall e | e in known ensures IsDurable(e) {
        DurableMembers(events, e);
      }
      DurableOfDurable(known);
      if pending == [] {
        assert known + pending == known && durable + pending == durable;
        TakeTwice(Dedupe(Sort(durable)), limit, LATEST_EVENTS_LIMIT);
      } else {
        LatestOfTruncated(durable, pending[0], LATEST_EVENTS_LIMIT, limit);
      }
    } else if limit > 0 {
      assert durable + pending == pending;
    }
  }

  // ---------------------------------------------------------------------------------------
  // What a reader sees, on timestamps and ids
  // ---------------------------------------------------------------------------------------

  /** Of the events with one id, deduplication keeps the newest. */
  lemma {:induction false} DedupeKeepsNewest(s: seq<SyncEvent>, e: SyncEvent)
    requires NewestFirst(s) && e in s
    ensures exists x :: x in Dedupe(s) && x.id == e.id && NotOlder(x, e)
    decreases |s|
  {
    assert s[0] in Dedupe(s);
    if e == s[0] {
      NotOlderTotal(e, e);
    } else if e.id == s[0].id {
      var j :| 0 < j < |s| && s[j] == e;
    } else {
      assert e in s[1..];
      DedupeKeepsNewest(s[1..], e);
      var x :| x in Dedupe(s[1..]) && x.id == e.id && NotOlder(x, e);
      WithoutIdMembers(Dedupe(s[1..]), s[0].id, x);
      assert x in Dedupe(s);
    }
  }

  /** An event is shown, under its id by one no older, or the list is full of events no older. */
  lemma {:induction false} LatestShowsOrIsFull(events: seq<SyncEvent>, limit: nat, e: SyncEvent)
    requires e in events
    ensures var shown := Latest(events, limit);
            (exists x :: x in shown && x.id == e.id && NotOlder(x, e)) ||
            (|shown| == limit && forall x :: x in shown ==> NotOlder(x, e))
  {
    var sorted := Sort(events);
    SortIsStableSort(events, e);
    assert e in multiset(sorted);
    DedupeKeepsNewest(sorted, e);
    DedupeShape(sorted);
    var x :| x in Dedupe(sorted) && x.id == e.id && NotOlder(x, e);
    TakeShowsOrIsFull(Dedupe(sorted), limit, x, e);
  }

  lemma {:induction false} TakeShowsOrIsFull(all: seq<SyncEvent>, limit: nat, x: SyncEvent, e: SyncEvent)
    requires NewestFirst(all) && x in all && NotOlder(x, e)
    ensures x in Take(all, limit) || (|Take(all, limit)| == limit && forall y :: y in Take(all, limit) ==> NotOlder(y, e))
  {
    var k :| 0 <= k < |all| && all[k] == x;
    if k < |Take(all, limit)| {
      assert Take(all, limit)[k] == x;
    } else {
      forall y | y in Take(all, limit) ensures NotOlder(y, e) {
        var j :| 0 <= j < limit && all[j] == y;
        NotOlderTransitive(y, x, e);
      }
    }
  }

  /** Whatever the log and the limit: newest first by timestamp, then by id, and no id twice. */
  lemma {:induction false} ReadIsNewestFirst(log: Log, limit: nat)
    ensures var shown := Read(log, limit).0;
            |shown| <= limit &&
            forall i, j :: 0 <= i < j < |shown| ==>
              shown[i].id != shown[j].id && shown[i].timestamp >= shown[j].timestamp &&
              (shown[i].timestamp == shown[j].timestamp ==> StringLe(shown[j].id, shown[i].id))
  {
    if limit > 0 {
      var from :| Read(log, limit).0 == Latest(from, limit);
      LatestIsFixed(from, limit);
    }
  }

  /**
   After any events a reading of up to a hundred shows only events that were logged, and every
   durable one of them either under its id, in a version no older, or not at all because the
   list is full of events no older than it.
   */
  lemma {:induction false} ReadShowsTheNewest(events: seq<SyncEvent>, limit: nat, e: SyncEvent)
    requires limit <= 100 && e in events && e.eventType != "progress"
    ensures var shown := Read(LogAfter(events), limit).0;
            (forall x :: x in shown ==> x in events && (x.eventType == "progress" ==> x == events[|events| - 1])) &&
            ((exists x :: x in shown && x.id == e.id &&
               (x.timestamp > e.timestamp || (x.timestamp == e.timestamp && StringLe(e.id, x.id)))) ||
             (|shown| == limit && forall x :: x in shown ==>
               x.timestamp > e.timestamp || (x.timestamp == e.timestamp && StringLe(e.id, x.id))))
  {
    IndexAgreesWithLog(events, limit);
    var all := Durable(events) + Pending(PendingAfter(events));
    DurableMembers(events, e);
    LatestShowsOrIsFull(all, limit, e);
    LatestIsFixed(all, limit);
    forall x | x in Latest(all, limit) ensures x in events && (x.eventType == "progress" ==> x == events[|events| - 1]) {
      DurableMembers(events, x);
    }
  }

  /** A pending progress event is shown in the same way, and only the last event can be one. */
  lemma {:induction false} ReadShowsProgress(events: seq<SyncEvent>, limit: nat, e: SyncEvent)
    requires limit <= 100 && events != [] && e == events[|events| - 1] && e.eventType == "progress"
    ensures var shown := Read(LogAfter(events), limit).0;
            (exists x :: x in shown && x.id == e.id &&
               (x.timestamp > e.timestamp || (x.timestamp == e.timestamp && StringLe(e.id, x.id)))) ||
            (|shown| == limit && forall x :: x in shown ==>
               x.timestamp > e.timestamp || (x.timestamp == e.timestamp && StringLe(e.id, x.id)))
  {
    IndexAgreesWithLog(events, limit);
    LatestShowsOrIsFull(Durable(events) + Pending(PendingAfter(events)), limit, e);
  }

  // ---------------------------------------------------------------------------------------
  // The event files: descending names, and when that is newest first
  // ---------------------------------------------------------------------------------------

  ghost predicate NamesDescend(files: seq<SyncEvent>) {
    forall i, j :: 0 <= i < j < |files| ==>
      FileName(files[i]) != FileName(files[j]) && StringLe(FileName(files[j]), FileName(files[i]))
  }

  /** What the file of that name holds. */
  function FileNamed(files: seq<SyncEvent>, name: string): Option<SyncEvent> {
    if files == [] then None
    else if FileName(files[0]) == name then Some(files[0])
    else FileNamed(files[1..], name)
  }

  /** The last of these events that goes under that name. */
  function LastNamed(events: seq<SyncEvent>, name: string): Option<SyncEvent> {
    if events == [] then None
    else
      var last := events[|events| - 1];
      if last.eventType != "progress" && Decimal(last.timestamp) + "-" + ShortId(last.id) + ".json" == name then Some(last)
      else LastNamed(events[..|events| - 1], name)
  }

  lemma {:induction false} FiledMembers(event: SyncEvent, files: seq<SyncEvent>, e: SyncEvent)
    requires e in Filed(event, files)
    ensures e == event || e in files
  {
    if files != [] && FileName(files[0]) != FileName(event) && StringLe(FileName(event), FileName(files[0])) && e != files[0] {
      assert e in Filed(event, files[1..]);
      FiledMembers(event, files[1..], e);
    }
  }

  lemma {:induction false} FiledKeepsOrder(event: SyncEvent, files: seq<SyncEvent>)
    requires NamesDescend(files)
    ensures NamesDescend(Filed(event, files))
  {
    if files != [] && FileName(files[0]) != FileName(event) {
      var first, name := FileName(files[0]), FileName(event);
      if StringLe(name, first) {
        FiledKeepsOrder(event, files[1..]);
        var rest := Filed(event, files[1..]);
        forall j | 0 <= j < |rest| ensures FileName(rest[j]) != first && StringLe(FileName(rest[j]), first) {
          FiledMembers(event, files[1..], rest[j]);
        }
      } else {
        StringLeTotal(name, first);
        forall j | 0 <= j < |files| ensures FileName(files[j]) != name && StringLe(FileName(files[j]), name) {
          if j > 0 {
            StringLeTransitive(FileName(files[j]), first, name);
            StringLeTotal(FileName(files[j]), first);
          }
        }
      }
    }
  }

  lemma {:induction false} FiledWrites(event: SyncEvent, files: seq<SyncEvent>, name: string)
    requires NamesDescend(files)
    ensures FileNamed(Filed(event, files), name) ==
            if FileName(event) == name then Some(event) else FileNamed(files, name)
  {
    if files == [] {
      assert [event][1..] == [];
    } else if FileName(files[0]) == FileName(event) {
      assert ([event] + files[1..])[1..] == files[1..];
    } else if StringLe(FileName(event), FileName(files[0])) {
      FiledWrites(event, files[1..], name);
      assert ([files[0]] + Filed(event, files[1..]))[1..] == Filed(event, files[1..]);
    } else {
      assert ([event] + files)[1..] == files;
    }
  }

  /** The files stand in descending order of their names, and each holds the last event logged under its name. */
  lemma {:induction false} FilesHoldTheLog(events: seq<SyncEvent>, name: string)
    ensures NamesDescend(LogAfter(events).files)
    ensures FileNamed(LogAfter(events).files, name) == LastNamed(events, name)
  {
    if events != [] {
      var n := |events| - 1;
      FilesHoldTheLog(events[..n], name);
      if IsDurable(events[n]) {
        FiledKeepsOrder(events[n], LogAfter(events[..n]).files);
        FiledWrites(events[n], LogAfter(events[..n]).files, name);
      }
    }
  }

  lemma {:induction false} StringLeAppend(a: string, b: string, x: string, y: string)
    requires |a| == |b|
    ensures StringLe(a + x, b + y) <==> if a == b then StringLe(x, y) else StringLe(a, b)
  {
    if a == [] {
      assert a + x == x && b + y == y;
    } else {
      StringLeAppend(a[1..], b[1..], x, y);
      assert (a + x)[1..] == a[1..] + x && (b + y)[1..] == b[1..] + y;
      assert a == [a[0]] + a[1..] && b == [b[0]] + b[1..];
    }
  }

  lemma {:induction false} DecimalOrder(m: nat, n: nat)
    requires |Decimal(m)| == |Decimal(n)|
    ensures StringLe(Decimal(m), Decimal(n)) <==> m <= n
    ensures Decimal(m) == Decimal(n) <==> m == n
    decreases m
  {
    if m >= 10 && n >= 10 {
      DecimalOrder(m / 10, n / 10);
      var x, y := [('0' as int + m % 10) as char], [('0' as int + n % 10) as char];
      StringLeAppend(Decimal(m / 10), Decimal(n / 10), x, y);
      DigitOrder(m % 10, n % 10, x, y);
      assert Decimal(m) == Decimal(m / 10) + x && Decimal(n) == Decimal(n / 10) + y;
      assert m / 10 == n / 10 || Decimal(m / 10) != Decimal(n / 10);
      assert Decimal(m)[..|Decimal(m / 10)|] == Decimal(m / 10) && Decimal(n)[..|Decimal(n / 10)|] == Decimal(n / 10);
    } else {
      DecimalLength(m);
      DecimalLength(n);
      DigitOrder(m, n, Decimal(m), Decimal(n));
    }
  }

  lemma {:induction false} DecimalLength(n: nat)
    ensures |Decimal(n)| > 0 && (|Decimal(n)| == 1 <==> n < 10)
  {
    if n >= 10 {
      DecimalLength(n / 10);
    }
  }

  lemma {:induction false} DigitOrder(m: nat, n: nat, x: string, y: string)
    requires m < 10 && n < 10 && x == [('0' as int + m) as char] && y == [('0' as int + n) as char]
    ensures StringLe(x, y) <==> m <= n
    ensures x == y <==> m == n
  {
    assert x[1..] == [] && y[1..] == [];
    assert x[0] as int == '0' as int + m && y[0] as int == '0' as int + n;
  }

  /** Timestamps of that many digits and ids long enough for the name. */
  ghost predicate SortsByName(e: SyncEvent, digits: nat) {
    |Decimal(e.timestamp)| == digits && |e.id| >= 8
  }

  lemma {:induction false} NameOrderIsAge(a: SyncEvent, b: SyncEvent, digits: nat)
    requires SortsByName(a, digits) && SortsByName(b, digits)
    requires StringLe(FileName(a), FileName(b)) && FileName(a) != FileName(b)
    ensures NotOlder(b, a)
  {
    var da, db := Decimal(a.timestamp), Decimal(b.timestamp);
    var sa, sb := ShortId(a.id), ShortId(b.id);
    assert FileName(a) == da + ("-" + (sa + ".json")) && FileName(b) == db + ("-" + (sb + ".json"));
    StringLeAppend(da, db, "-" + (sa + ".json"), "-" + (sb + ".json"));
    DecimalOrder(a.timestamp, b.timestamp);
    if da == db {
      StringLeAppend("-", "-", sa + ".json", sb + ".json");
      StringLeAppend(sa, sb, ".json", ".json");
      assert a.id == sa + a.id[8..] && b.id == sb + b.id[8..];
      StringLeAppend(sa, sb, a.id[8..], b.id[8..]);
    }
  }

  lemma {:induction false} FilesAreLogged(events: seq<SyncEvent>, e: SyncEvent)
    requires e in LogAfter(events).files
    ensures e in events && IsDurable(e)
  {
    if events != [] {
      var n := |events| - 1;
      if IsDurable(events[n]) {
        FiledMembers(events[n], LogAfter(events[..n]).files, e);
      }
      if !IsDurable(events[n]) || e != events[n] {
        FilesAreLogged(events[..n], e);
      }
    }
  }

  /**
   Timestamps with equally many digits, ids of eight characters or more and none twice: the
   files are the durable events newest first. A log whose index is missing then has the form
   the following results ask for.
   */
  lemma {:induction false} FilesAreNewestFirst(events: seq<SyncEvent>, digits: nat)
    requires forall e :: e in events ==> SortsByName(e, digits)
    requires forall i, j :: 0 <= i < j < |events| ==> events[i].id != events[j].id
    requires exists e :: e in events && e.eventType != "progress"
    ensures LegacyLog(Log(LogAfter(events).files, None, None))
  {
    var files := LogAfter(events).files;
    FilesHoldTheLog(events, "");
    LogAfterShape(events);
    var some :| some in events && some.eventType != "progress";
    DurableMembers(events, some);
    forall i, j | 0 <= i < j < |files|
      ensures NotOlder(files[i], files[j]) && files[i].id != files[j].id
    {
      FilesAreLogged(events, files[i]);
      FilesAreLogged(events, files[j]);
      NameOrderIsAge(files[j], files[i], digits);
      SameIdSameEvent(events, files[i], files[j]);
    }
    forall i | 0 <= i < |files| ensures IsDurable(files[i]) {
      FilesAreLogged(events, files[i]);
    }
  }

  lemma {:induction false} SameIdSameEvent(events: seq<SyncEvent>, a: SyncEvent, b: SyncEvent)
    requires forall i, j :: 0 <= i < j < |events| ==> events[i].id != events[j].id
    requires a in events && b in events && FileName(a) != FileName(b)
    ensures a.id != b.id
  {
    var i :| 0 <= i < |events| && events[i] == a;
    var j :| 0 <= j < |events| && events[j] == b;
    assert i != j;
  }

  // ---------------------------------------------------------------------------------------
  // Where the index does not agree: a log older than the index, read with a small limit
  // ---------------------------------------------------------------------------------------

  /** A log without an index whose files are already newest first and carry distinct ids. */
  ghost predicate LegacyLog(log: Log) {
    log.index == None && log.progress == None && log.files != [] && Ordered(log.files)
  }

  lemma {:induction false} LatestOfOrdered(s: seq<SyncEvent>, limit: nat)
    requires NewestFirst(s) && DistinctIds(s)
    ensures Latest(s, limit) == Take(s, limit) && Dedupe(s) == s
  {
    SortOfSorted(s);
    DedupeOfDistinct(s);
  }

  /** Newest first, no id twice, nothing but durable events. */
  ghost predicate Ordered(s: seq<SyncEvent>) {
    NewestFirst(s) && DistinctIds(s) && forall i :: 0 <= i < |s| ==> IsDurable(s[i])
  }

  lemma {:induction false} TakeKeepsOrdered(s: seq<SyncEvent>, n: nat)
    requires Ordered(s)
    ensures Ordered(Take(s, n))
  {
  }

  lemma {:induction false} LatestOfCandidates(cut: seq<SyncEvent>, limit: nat)
    requires Ordered(cut)
    ensures Latest(Dedupe([] + Durable(cut)), limit) == Take(cut, limit)
    ensures Latest(Durable(cut) + [], limit) == Take(cut, limit)
  {
    DurableOfDurable(cut);
    LatestOfOrdered(cut, limit);
    assert [] + cut == cut && cut + [] == cut;
  }

  lemma {:induction false} LegacyReadTakesNewest(log: Log, limit: nat)
    requires LegacyLog(log) && limit > 0
    ensures Read(log, limit) == (Take(log.files, limit), log.(index := Some(Take(log.files, limit))))
    ensures Latest(log.files, limit) == Take(log.files, limit)
  {
    TakeKeepsOrdered(log.files, 2 * limit + 10);
    LatestOfCandidates(Take(log.files, 2 * limit + 10), limit);
    TakeTwice(log.files, limit, 2 * limit + 10);
    LatestOfOrdered(log.files, limit);
  }

  lemma {:induction false} TakeOfTake<T>(s: seq<T>, first: nat, later: nat)
    ensures Take(Take(s, first), later) == Take(s, later) <==> later <= first || |s| <= first
  {
    if first < later && first < |s| {
      assert |Take(Take(s, first), later)| == first < |Take(s, later)|;
    }
  }

  /**
   The first reading of such a log stores an index cut to that reading's limit. A later
   reading is right if and only if it asks for no more than the first did, or the first
   already saw every event.
   */
  lemma {:induction false} BackfillTruncatesIndex(log: Log, first: nat, later: nat)
    requires LegacyLog(log) && first > 0 && later > 0
    ensures Read(Read(log, first).1, later).0 == Latest(log.files, later)
            <==> later <= first || |log.files| <= first
  {
    LegacyReadTakesNewest(log, first);
    LegacyReadTakesNewest(log, later);
    TakeKeepsOrdered(log.files, first);
    LatestOfCandidates(Take(log.files, first), later);
    TakeOfTake(log.files, first, later);
  }

  lemma {:induction false} IdsAppend(a: seq<SyncEvent>, b: seq<SyncEvent>)
    ensures Ids(a + b) == Ids(a) + Ids(b)
  {
    forall id | id in Ids(a) + Ids(b) ensures id in Ids(a + b) {
      var x :| (x in a || x in b) && x.id == id;
      assert x in a + b;
    }
  }

  lemma {:induction false} IdsSnoc(s: seq<SyncEvent>, e: SyncEvent)
    ensures Ids(s + [e]) == Ids(s) + {e.id}
  {
    IdsAppend(s, [e]);
    assert e in [e];
    assert Ids([e]) == {e.id};
  }

  lemma {:induction false} DedupeAppend(a: seq<SyncEvent>, b: seq<SyncEvent>) returns (more: seq<SyncEvent>)
    ensures Dedupe(a + b) == Dedupe(a) + more
    ensures more == [] <==> Ids(b) <= Ids(a)
    decreases |b|
  {
    if b == [] {
      assert a + b == a;
      more := [];
    } else {
      var n := |b| - 1;
      var front := DedupeAppend(a, b[..n]);
      assert b == b[..n] + [b[n]] && a + b == (a + b[..n]) + [b[n]];
      more := front + (if b[n].id in Ids(a + b[..n]) then [] else [b[n]]);
      DedupeOneMore(a, b[..n], b[n], front);
    }
  }

  lemma {:induction false} DedupeOneMore(a: seq<SyncEvent>, b: seq<SyncEvent>, e: SyncEvent, front: seq<SyncEvent>)
    requires Dedupe(a + b) == Dedupe(a) + front && (front == [] <==> Ids(b) <= Ids(a))
    ensures var more := front + (if e.id in Ids(a + b) then [] else [e]);
            Dedupe((a + b) + [e]) == Dedupe(a) + more && (more == [] <==> Ids(b + [e]) <= Ids(a))
  {
    DedupeSnoc(a + b, e);
    IdsAppend(a, b);
    IdsSnoc(b, e);
  }

  lemma {:induction false} DedupeCountsIds(s: seq<SyncEvent>)
    ensures |Dedupe(s)| == |Ids(s)|
    decreases |s|
  {
    if s == [] {
      assert Ids(s) == {};
    } else {
      var n := |s| - 1;
      DedupeCountsIds(s[..n]);
      DedupeSnoc(s[..n], s[n]);
      assert s == s[..n] + [s[n]];
      IdsSnoc(s[..n], s[n]);
    }
  }

  /**
   A backfill opens twice the limit and ten files more. Where ids repeat, that is enough if and
   only if those files hold as many ids as were asked for, or every id of the log.
   */
  lemma {:induction false} CandidatesSufficeIff(log: Log, limit: nat)
    requires log.index == None && log.progress == None && log.files != [] && limit > 0
    requires NewestFirst(log.files) && forall e :: e in log.files ==> e.eventType != "progress"
    ensures var opens := Take(log.files, 2 * limit + 10);
            Read(log, limit).0 == Latest(log.files, limit) <==> |Ids(opens)| >= limit || Ids(opens) == Ids(log.files)
  {
    var opens := Take(log.files, 2 * limit + 10);
    ReadOfCandidates(log, limit, opens);
    DedupeOfPart(opens, log.files[|opens|..], limit);
    SortOfSorted(log.files);
    assert log.files == opens + log.files[|opens|..];
  }

  lemma {:induction false} ReadOfCandidates(log: Log, limit: nat, opens: seq<SyncEvent>)
    requires log.index == None && log.progress == None && log.files != [] && limit > 0
    requires NewestFirst(opens) && forall e :: e in opens ==> IsDurable(e)
    requires opens == Take(log.files, 2 * limit + 10)
    ensures Read(log, limit).0 == Take(Dedupe(opens), limit)
  {
    DurableOfDurable(opens);
    DedupeShape(opens);
    assert [] + opens == opens;
    LatestOfOrdered(Dedupe(opens), limit);
  }

  lemma {:induction false} DedupeOfPart(part: seq<SyncEvent>, rest: seq<SyncEvent>, limit: nat)
    ensures Take(Dedupe(part), limit) == Take(Dedupe(part + rest), limit) <==>
            |Ids(part)| >= limit || Ids(part) == Ids(part + rest)
  {
    var more := DedupeAppend(part, rest);
    IdsAppend(part, rest);
    DedupeCountsIds(part);
    TakeOfLonger(Dedupe(part), more, limit);
  }

  lemma {:induction false} TakeOfLonger<T>(s: seq<T>, more: seq<T>, n: nat)
    ensures Take(s, n) == Take(s + more, n) <==> |s| >= n || more == []
  {
    if |s| >= n {
      assert (s + more)[..n] == s[..n];
    } else if more == [] {
      assert s + more == s;
    } else {
      assert |Take(s + more, n)| > |s|;
    }
  }

  // ---------------------------------------------------------------------------------------
  // The same with a progress event pending: the backfill stores it among the others
  // ---------------------------------------------------------------------------------------

  /** How many events of a newest-first list go before this one. */
  function Rank(event: SyncEvent, s: seq<SyncEvent>): (k: nat)
    ensures k <= |s|
  {
    if s != [] && NotOlder(s[0], event) then 1 + Rank(event, s[1..]) else 0
  }

  ghost predicate NewId(event: SyncEvent, s: seq<SyncEvent>) {
    forall i :: 0 <= i < |s| ==> s[i].id != event.id
  }

  lemma {:induction false} UpsertBehind(event: SyncEvent, s: seq<SyncEvent>, k: nat)
    requires s != [] && NotOlder(s[0], event) && s[0].id != event.id && k < |s|
    requires Upsert(event, s[1..]) == s[1..][..k] + [event] + s[1..][k..]
    ensures Upsert(event, s) == s[..k + 1] + [event] + s[k + 1..]
  {
  }

  lemma {:induction false} UpsertAtRank(event: SyncEvent, s: seq<SyncEvent>)
    requires NewId(event, s)
    ensures Upsert(event, s) == s[..Rank(event, s)] + [event] + s[Rank(event, s)..]
  {
    if s == [] {
    } else if NotOlder(s[0], event) {
      UpsertAtRank(event, s[1..]);
      UpsertBehind(event, s, Rank(event, s[1..]));
    } else {
      WithoutAbsentId(s, event.id);
      assert s[..0] + [event] + s[0..] == [event] + s;
    }
  }

  lemma {:induction false} RankOfTake(event: SyncEvent, s: seq<SyncEvent>, n: nat)
    ensures Rank(event, Take(s, n)) == if Rank(event, s) <= n then Rank(event, s) else n
  {
    if s != [] && n > 0 {
      TakeTail(s, n);
      assert Take(s, n)[1..] == Take(s[1..], n - 1);
      RankOfTake(event, s[1..], n - 1);
    }
  }

  /** One event behind everything, and one anywhere: the order of insertion does not matter. */
  lemma {:induction false} InsertLast(event: SyncEvent, s: seq<SyncEvent>, last: SyncEvent)
    requires (forall i :: 0 <= i < |s| ==> NotOlder(s[i], last)) && last.id != event.id
    ensures Insert(last, Insert(event, s)) == Insert(event, s + [last])
  {
    if s == [] {
      assert [] + [last] == [last];
      StringLeTotal(last.id, event.id);
    } else if NotOlder(s[0], event) {
      InsertLast(event, s[1..], last);
      assert (s + [last])[1..] == s[1..] + [last];
      assert ([s[0]] + Insert(event, s[1..]))[1..] == Insert(event, s[1..]);
    } else {
      NotOlderTotal(s[0], event);
      NotOlderTransitive(event, s[0], last);
      InsertBehindAll(last, s);
      assert ([event] + s)[1..] == s;
    }
  }

  lemma {:induction false} SortWithFirst(event: SyncEvent, s: seq<SyncEvent>)
    requires NewestFirst(s) && NewId(event, s)
    ensures Sort([event] + s) == Insert(event, s)
  {
    if s == [] {
      assert [event] + s == [event] && [event][..0] == [];
    } else {
      var n := |s| - 1;
      assert ([event] + s)[..n + 1] == [event] + s[..n] && s[..n] + [s[n]] == s;
      SortWithFirst(event, s[..n]);
      InsertLast(event, s[..n], s[n]);
    }
  }

  /** A newest-first list and one new event, in either order, sorted and cut. */
  lemma {:induction false} LatestWithOne(event: SyncEvent, s: seq<SyncEvent>, limit: nat)
    requires NewestFirst(s) && DistinctIds(s) && NewId(event, s)
    ensures Latest(s + [event], limit) == Take(Upsert(event, s), limit)
    ensures Latest(Dedupe([event] + s), limit) == Take(Upsert(event, s), limit)
  {
    LatestSnoc(s, event);
    SortOfSorted(s);
    DedupeOfDistinct(s);
    LatestWithFirst(event, s, limit);
  }

  lemma {:induction false} LatestWithFirst(event: SyncEvent, s: seq<SyncEvent>, limit: nat)
    requires NewestFirst(s) && DistinctIds(s) && NewId(event, s)
    ensures Latest(Dedupe([event] + s), limit) == Take(Upsert(event, s), limit)
  {
    DedupeOfDistinct([event] + s);
    SortWithFirst(event, s);
    DedupeOfInsert(event, s);
    DedupeOfDistinct(s);
  }

  /** A log of that kind, with a progress event pending that no file holds. */
  ghost predicate LegacyLogInProgress(log: Log) {
    log.progress.Some? && !IsDurable(log.progress.value) && NewId(log.progress.value, log.files) && LegacyLog(log.(progress := None))
  }

  /** How many files a first reading of that limit leaves in the index: one fewer if the progress event is among what it shows. */
  function Backfilled(log: Log, first: nat): nat
    requires log.progress.Some?
  {
    if first > 0 && Rank(log.progress.value, log.files) < first then first - 1 else first
  }

  /** The progress event among the events kept. */
  lemma {:induction false} DurableAround(p: SyncEvent, front: seq<SyncEvent>, back: seq<SyncEvent>)
    requires !IsDurable(p) && Ordered(front) && Ordered(back)
    ensures Durable(front + [p] + back) == front + back
  {
    DurableAppend(front + [p], back);
    DurableAppend(front, [p]);
    DurableOfDurable(front);
    DurableOfDurable(back);
    assert [p][1..] == [];
    assert Durable([p]) == [];
    assert front + [] == front;
  }

  lemma {:induction false} TakeAround<T>(s: seq<T>, x: T, k: nat, n: nat)
    requires k <= |s| && k < n
    ensures var end := if |s| < n - 1 then |s| else n - 1;
            Take(s[..k] + [x] + s[k..], n) == s[..k] + [x] + s[k..end] && s[..k] + s[k..end] == Take(s, n - 1)
  {
    var end := if |s| < n - 1 then |s| else n - 1;
    assert s[..k] + [x] + s[k..] == (s[..k] + [x] + s[k..end]) + s[end..];
  }

  lemma {:induction false} SliceKeepsOrdered(s: seq<SyncEvent>, i: nat, j: nat)
    requires Ordered(s) && i <= j <= |s|
    ensures Ordered(s[i..j])
  {
  }

  lemma {:induction false} DurableOfBackfill(p: SyncEvent, files: seq<SyncEvent>, first: nat)
    requires !IsDurable(p) && NewId(p, files) && Ordered(files) && first > 0
    ensures Durable(Take(Upsert(p, files), first)) == Take(files, if Rank(p, files) < first then first - 1 else first)
  {
    var k := Rank(p, files);
    UpsertAtRank(p, files);
    if k < first {
      var end := if |files| < first - 1 then |files| else first - 1;
      TakeAround(files, p, k, first);
      SliceKeepsOrdered(files, 0, k);
      SliceKeepsOrdered(files, k, end);
      DurableAround(p, files[0..k], files[k..end]);
    } else {
      assert Take(Upsert(p, files), first) == files[..first];
      DurableOfDurable(files[..first]);
    }
  }

  /** One event put into the front of a list. */
  lemma {:induction false} UpsertOfTake(p: SyncEvent, s: seq<SyncEvent>, n: nat)
    requires NewId(p, s) && n < |s|
    ensures |Upsert(p, s)| == |s| + 1
    ensures Rank(p, s) <= n ==> Upsert(p, Take(s, n)) == Take(Upsert(p, s), n + 1)
    ensures Rank(p, s) > n ==> Upsert(p, Take(s, n)) == s[..n] + [p] && Upsert(p, s)[..n + 1] == s[..n + 1]
  {
    var k := Rank(p, s);
    UpsertAtRank(p, s);
    UpsertAtRank(p, Take(s, n));
    RankOfTake(p, s, n);
    if k <= n {
      assert Upsert(p, Take(s, n)) == s[..k] + [p] + s[k..n];
    }
  }

  lemma {:induction false} FirstReadInProgress(log: Log, first: nat)
    requires LegacyLogInProgress(log) && first > 0
    ensures Read(log, first).0 == Take(Upsert(log.progress.value, log.files), first)
    ensures Read(log, first).1 == log.(index := Some(Take(Upsert(log.progress.value, log.files), first)))
  {
    var p := log.progress.value;
    var cut := Take(log.files, 2 * first + 10);
    TakeKeepsOrdered(log.files, 2 * first + 10);
    DurableOfDurable(cut);
    LatestWithOne(p, cut, first);
    UpsertOfCut(p, log.files, 2 * first + 10, first);
  }

  /** Cutting well behind what is shown does not show. */
  lemma {:induction false} UpsertOfCut(p: SyncEvent, s: seq<SyncEvent>, n: nat, limit: nat)
    requires NewId(p, s) && limit <= n
    ensures Take(Upsert(p, Take(s, n)), limit) == Take(Upsert(p, s), limit)
  {
    if n < |s| {
      UpsertOfTake(p, s, n);
      TakeTwice(Upsert(p, s), limit, n + 1);
      if Rank(p, s) > n {
        assert Take(s[..n] + [p], limit) == s[..limit];
        assert Take(Upsert(p, s), limit) == Upsert(p, s)[..n + 1][..limit] == s[..limit];
      }
    }
  }

  /**
   With a progress event pending, a later reading is right if and only if it asks for no more
   than the index and the progress event give, or the index already holds every file. The
   progress event helps by one place if it stands among the events kept or right behind them.
   */
  lemma {:induction false} BackfillWithProgress(log: Log, first: nat, later: nat)
    requires LegacyLogInProgress(log) && first > 0 && later > 0
    ensures var p := log.progress.value;
            var kept := Backfilled(log, first);
            Read(Read(log, first).1, later).0 == Latest(log.files + [p], later)
            <==> later <= (if Rank(p, log.files) <= kept then kept + 1 else kept) || |log.files| <= kept
  {
    var p := log.progress.value;
    var kept := Backfilled(log, first);
    FirstReadInProgress(log, first);
    DurableOfBackfill(p, log.files, first);
    TakeKeepsOrdered(log.files, kept);
    LatestWithOne(p, Take(log.files, kept), later);
    LatestWithOne(p, log.files, later);
    SameUpsertIff(p, log.files, kept, later);
  }

  lemma {:induction false} SameUpsertIff(p: SyncEvent, s: seq<SyncEvent>, kept: nat, later: nat)
    requires NewId(p, s)
    ensures Take(Upsert(p, Take(s, kept)), later) == Take(Upsert(p, s), later)
            <==> later <= (if Rank(p, s) <= kept then kept + 1 else kept) || |s| <= kept
  {
    if kept < |s| {
      UpsertOfTake(p, s, kept);
      if Rank(p, s) <= kept {
        TakeOfTake(Upsert(p, s), kept + 1, later);
      } else if later > kept {
        assert Take(s[..kept] + [p], later)[kept] == p;
        assert Take(Upsert(p, s), later)[kept] == Upsert(p, s)[..kept + 1][kept] == s[kept];
      } else {
        UpsertOfCut(p, s, kept, later);
      }
    }
  }

  /** Two old events: reading one and then a hundred yields one. */
  lemma {:induction false} BackfillLosesAnEvent()
    ensures var newer := SyncEvent("b", "rel", 2, "push", "");
            var older := SyncEvent("a", "rel", 1, "push", "");
            var log := Log([newer, older], None, None);
            Read(Read(log, 1).1, 100).0 != Latest(log.files, 100)
  {
    var newer := SyncEvent("b", "rel", 2, "push", "");
    var older := SyncEvent("a", "rel", 1, "push", "");
    var log := Log([newer, older], None, None);
    assert LegacyLog(log);
    BackfillTruncatesIndex(log, 1, 100);
  }
}
