/**
 * Overlapping synchronisations of the news gateway: only the one started last may publish, and each
 * announces at most five emergencies it has not announced before.
 */
module NewsSync {
  import opened Arithmetic
  import opened BoundedMaps
  import opened FifoMaps
  import opened Wrappers

  const MAX_TRACKED_HEADLINES := 4096
  const MAX_TRACKED_EMERGENCY_HEADLINES := 512
  const MAX_EMERGENCY_ANNOUNCES_PER_SYNC := 5

  type HeadlineId = string
  type ContentId = string

  /** A feed item: its id, the fingerprint of the headline built from it, and how it is classified. */
  datatype Item = Item(id: HeadlineId, content: ContentId, emergency: bool)

  type Versions = FifoMap<HeadlineId, ContentId>

  datatype News = News(
    announced: Versions,      // announcedEmergencyById
    published: Versions,      // publishedById
    announcements: seq<Item>, // every EMERGENCY broadcast so far
    changed: seq<Item>,       // what the running sync has found new
    count: nat)               // its broadcasts so far

  function Oldest(k: HeadlineId): int { 0 }

  function Lookup(m: Versions, id: HeadlineId): Option<ContentId> {
    if id in m.entries then Some(m.entries[id]) else None
  }

  predicate Recorded(m: Versions, item: Item) {
    Lookup(m, item.id) == Some(item.content)
  }

  function Put(m: Versions, max: nat, item: Item): (r: Versions)
    requires m.Valid()
    ensures r.Valid()
  {
    Set(m, max, item.id, item.content, Oldest)
  }

  predicate Announces(n: News, item: Item) {
    !Recorded(n.announced, item) && item.emergency && n.count < MAX_EMERGENCY_ANNOUNCES_PER_SYNC
  }

  ghost predicate ValidNews(n: News) {
    && n.announced.Valid() && |n.announced.order| <= MAX_TRACKED_EMERGENCY_HEADLINES
    && n.published.Valid() && |n.published.order| <= MAX_TRACKED_HEADLINES
  }

  function Process(n: News, item: Item): (r: News)
    requires n.announced.Valid() && n.published.Valid()
    ensures r.announced.Valid() && r.published.Valid()
  {
    var a := if Announces(n, item)
             then n.(announced := Put(n.announced, MAX_TRACKED_EMERGENCY_HEADLINES, item),
                     announcements := n.announcements + [item], count := n.count + 1)
             else n;
    if Recorded(n.published, item) then a
    else a.(published := Put(n.published, MAX_TRACKED_HEADLINES, item), changed := n.changed + [item])
  }

  function ProcessAll(n: News, items: seq<Item>): (r: News)
    requires n.announced.Valid() && n.published.Valid()
    ensures r.announced.Valid() && r.published.Valid()
  {
    if items == [] then n else Process(ProcessAll(n, items[..|items| - 1]), items[|items| - 1])
  }

  /** A sync that still is the latest one when its feed has been parsed. */
  function Commit(n: News, items: seq<Item>): (r: News)
    requires n.announced.Valid() && n.published.Valid()
    ensures r.announced.Valid() && r.published.Valid()
  {
    ProcessAll(n.(changed := [], count := 0), items)
  }

  // ---------------------------------------------------------------- overlapping syncs

  datatype State = State(
    generation: nat,
    fetching: set<nat>,       // the syncs awaiting their feed
    news: News,
    cached: seq<Item>,        // cachedHeadlines
    committed: seq<nat>)      // the syncs that have published, in order

  const INITIAL := State(0, {}, News(FifoMap(map[], []), FifoMap(map[], []), [], [], 0), [], [])

  /** `feed` is nothing when the fetch fails or the feed does not parse. */
  datatype Event = Starts | FeedArrives(generation: nat, feed: Option<seq<Item>>)

  function Step(s: State, e: Event): (r: State)
    requires s.news.announced.Valid() && s.news.published.Valid()
    ensures r.news.announced.Valid() && r.news.published.Valid()
  {
    match e
    case Starts => s.(generation := s.generation + 1, fetching := s.fetching + {s.generation + 1})
    case FeedArrives(g, feed) =>
      if g !in s.fetching then s
      else
        var done := s.(fetching := s.fetching - {g});
        if feed.None? || g != s.generation then done
        else done.(news := Commit(s.news, feed.value), cached := feed.value, committed := s.committed + [g])
  }

  function Run(events: seq<Event>): (s: State)
    ensures s.news.announced.Valid() && s.news.published.Valid()
  {
    if events == [] then INITIAL else Step(Run(events[..|events| - 1]), events[|events| - 1])
  }

  ghost predicate Inv(s: State) {
    && (forall g :: g in s.fetching ==> g <= s.generation)
    && (forall i :: 0 <= i < |s.committed| ==> s.committed[i] <= s.generation && s.committed[i] !in s.fetching)
    && (forall i, j :: 0 <= i < j < |s.committed| ==> s.committed[i] < s.committed[j])
    && ValidNews(s.news)
  }

  lemma {:induction false} ProcessAllKeepsBounds(n: News, items: seq<Item>)
    requires ValidNews(n) && n.count <= MAX_EMERGENCY_ANNOUNCES_PER_SYNC
    ensures var r := ProcessAll(n, items);
            && ValidNews(r) && r.count <= MAX_EMERGENCY_ANNOUNCES_PER_SYNC
            && |r.announcements| == |n.announcements| + r.count - n.count
  {
    hide Process;
    if items != [] {
      ProcessAllKeepsBounds(n, items[..|items| - 1]);
      ProcessKeepsBounds(ProcessAll(n, items[..|items| - 1]), items[|items| - 1]);
    }
  }

  lemma ProcessKeepsBounds(n: News, item: Item)
    requires ValidNews(n) && n.count <= MAX_EMERGENCY_ANNOUNCES_PER_SYNC
    ensures var r := Process(n, item);
            && ValidNews(r) && r.count <= MAX_EMERGENCY_ANNOUNCES_PER_SYNC
            && |r.announcements| == |n.announcements| + r.count - n.count
  {
    hide Put, Recorded;
    PutKeepsBound(n.announced, MAX_TRACKED_EMERGENCY_HEADLINES, item);
    PutKeepsBound(n.published, MAX_TRACKED_HEADLINES, item);
  }

  lemma CommitKeepsBounds(n: News, items: seq<Item>)
    requires ValidNews(n)
    ensures ValidNews(Commit(n, items))
    ensures |n.announcements| <= |Commit(n, items).announcements|
    ensures |Commit(n, items).announcements| <= |n.announcements| + MAX_EMERGENCY_ANNOUNCES_PER_SYNC
  {
    hide ProcessAll;
    ProcessAllKeepsBounds(n.(changed := [], count := 0), items);
  }

  lemma PutKeepsBound(m: Versions, max: nat, item: Item)
    requires m.Valid() && |m.order| <= max
    ensures |Put(m, max, item).order| <= max
  {
    SetKeepsBound(m, max, item.id, item.content, Oldest);
    SizeIsOrder(Put(m, max, item));
  }

  lemma {:induction false} RunsKeep(events: seq<Event>)
    ensures Inv(Run(events))
  {
    hide Inv, Step;
    if events == [] {
      InitialInv();
    } else {
      var past, e := events[..|events| - 1], events[|events| - 1];
      RunsKeep(past);
      match e
      case Starts => StartKeeps(Run(past));
      case FeedArrives(g, feed) => FeedKeeps(Run(past), g, feed);
    }
  }

  lemma InitialInv()
    ensures Inv(INITIAL)
  {
  }

  lemma StartKeeps(s: State)
    requires Inv(s)
    ensures Inv(Step(s, Starts))
  {
    hide ValidNews;
    assert ValidNews(s.news);
  }

  lemma FeedKeeps(s: State, g: nat, feed: Option<seq<Item>>)
    requires Inv(s)
    ensures Inv(Step(s, FeedArrives(g, feed)))
  {
    hide ValidNews, Commit;
    if feed.Some? {
      CommitKeepsBounds(s.news, feed.value);
    }
  }

  // Over every run, a sync changes anything only if none was started after it; syncs publish in the
  // order they were started, each at most once; and each broadcasts at most five emergencies.
  lemma OnlyTheLatestCommits(events: seq<Event>, g: nat, feed: Option<seq<Item>>)
    ensures var s := Run(events);
            var n := Step(s, FeedArrives(g, feed));
            && (n.news != s.news || n.cached != s.cached || n.committed != s.committed ==>
                  g == s.generation && feed.Some? && n.committed == s.committed + [g])
            && |s.news.announcements| <= |n.news.announcements|
            && |n.news.announcements| <= |s.news.announcements| + 5
            && (forall i, j :: 0 <= i < j < |n.committed| ==> n.committed[i] < n.committed[j])
            && |n.news.announced.entries| <= 512
            && |n.news.published.entries| <= 4096
  {
    hide Run, Commit;
    RunsKeep(events);
    var s := Run(events);
    var n := Step(s, FeedArrives(g, feed));
    FeedKeeps(s, g, feed);
    if feed.Some? {
      CommitKeepsBounds(s.news, feed.value);
    }
    SizeIsOrder(n.news.announced);
    SizeIsOrder(n.news.published);
  }

  /** Nothing happens that overtakes sync `g` or answers it. */
  ghost predicate LeavesLatest(events: seq<Event>, g: nat) {
    forall i :: 0 <= i < |events| ==> events[i].FeedArrives? && events[i].generation != g
  }

  lemma {:induction false} StaysLatest(past: seq<Event>, later: seq<Event>)
    requires LeavesLatest(later, Run(past).generation + 1)
    ensures var s, g := Run(past + [Starts] + later), Run(past).generation + 1;
            s.generation == g && g in s.fetching
  {
    hide Run, Commit;
    var started := past + [Starts];
    if later == [] {
      RunSnoc(past, Starts);
      assert started + later == started;
    } else {
      var n := |later| - 1;
      StaysLatest(past, later[..n]);
      RunSnoc(started + later[..n], later[n]);
      assert started + later == started + later[..n] + [later[n]];
      assert later[n].FeedArrives? && later[n].generation != Run(past).generation + 1;
    }
  }

  // A sync that no other one overtakes does commit its feed, whatever becomes of those before it: it is
  // the next to commit, and its feed is what the gateway serves from then on.
  lemma LatestSyncCommits(past: seq<Event>, later: seq<Event>, items: seq<Item>)
    requires LeavesLatest(later, Run(past).generation + 1)
    ensures var s, g := Run(past + [Starts] + later), Run(past).generation + 1;
            var n := Step(s, FeedArrives(g, Some(items)));
            && n.committed == s.committed + [g] && n.cached == items && n.news == Commit(s.news, items)
            && g !in n.fetching
  {
    hide Run, Commit;
    StaysLatest(past, later);
  }

  // ---------------------------------------------------------------- an unchanged feed

  predicate DistinctIds(items: seq<Item>) {
    forall i, j :: 0 <= i < j < |items| ==> items[i].id != items[j].id
  }

  predicate Waiting(m: Versions, item: Item) {
    item.emergency && !Recorded(m, item)
  }

  /** How many of the first `j` items wait to be announced. */
  function Rank(m: Versions, items: seq<Item>, j: nat): nat
    requires j <= |items|
  {
    if j == 0 then 0 else Rank(m, items, j - 1) + if Waiting(m, items[j - 1]) then 1 else 0
  }

  /** How many of the first `j` items would take a new entry. */
  function NewKeys(m: Versions, items: seq<Item>, j: nat): nat
    requires j <= |items|
  {
    if j == 0 then 0
    else NewKeys(m, items, j - 1) + if items[j - 1].emergency && items[j - 1].id !in m.entries then 1 else 0
  }

  function Times(log: seq<Item>, item: Item): nat {
    if log == [] then 0 else Times(log[..|log| - 1], item) + if log[|log| - 1] == item then 1 else 0
  }

  lemma TimesSnoc(log: seq<Item>, last: Item, item: Item)
    ensures Times(log + [last], item) == Times(log, item) + if last == item then 1 else 0
  {
    assert (log + [last])[..|log|] == log;
  }

  function AtMostFive(n: nat): nat {
    if n <= MAX_EMERGENCY_ANNOUNCES_PER_SYNC then n else MAX_EMERGENCY_ANNOUNCES_PER_SYNC
  }

  /** Whether item `i` is among the ones the sync announces. */
  predicate Chosen(m: Versions, items: seq<Item>, i: nat)
    requires i < |items|
  {
    Waiting(m, items[i]) && Rank(m, items, i) < MAX_EMERGENCY_ANNOUNCES_PER_SYNC
  }

  /** Entries held, and entries the feed can still add. */
  function Demand(m: Versions, items: seq<Item>): nat {
    |m.order| + NewKeys(m, items, |items|)
  }

  /** The sync after its first `j` items, compared with what it started from. */
  ghost predicate Progress(n: News, items: seq<Item>, j: nat, r: News)
    requires j <= |items|
  {
    && r.announced.Valid()
    && r.count == AtMostFive(Rank(n.announced, items, j))
    && Demand(r.announced, items) <= Demand(n.announced, items)
    && (forall i :: 0 <= i < |items| ==> ItemProgress(n, items, i, j, r))
  }

  ghost predicate ItemProgress(n: News, items: seq<Item>, i: nat, j: nat, r: News)
    requires i < |items|
  {
    var chosen := i < j && Chosen(n.announced, items, i);
    && Lookup(r.announced, items[i].id) == (if chosen then Some(items[i].content) else Lookup(n.announced, items[i].id))
    && Times(r.announcements, items[i]) == Times(n.announcements, items[i]) + if chosen then 1 else 0
  }

  lemma {:induction false} NewKeysAfterPut(m: Versions, r: Versions, items: seq<Item>, i: nat, j: nat)
    requires DistinctIds(items) && i < |items| && j <= |items|
    requires forall id :: id in r.entries <==> id in m.entries || id == items[i].id
    ensures NewKeys(r, items, j) ==
            NewKeys(m, items, j) - if i < j && items[i].emergency && items[i].id !in m.entries then 1 else 0
  {
    if j > 0 {
      NewKeysAfterPut(m, r, items, i, j - 1);
    }
  }

  lemma PutWithRoom(m: Versions, max: nat, item: Item)
    requires m.Valid() && max > 0 && (item.id in m.entries || |m.order| < max)
    ensures var r := Put(m, max, item);
            && |r.order| == |m.order| + (if item.id in m.entries then 0 else 1)
            && forall id :: Lookup(r, id) == if id == item.id then Some(item.content) else Lookup(m, id)
  {
  }

  // Announcing an item of the feed never throws out another entry.
  lemma PutInFeed(m: Versions, items: seq<Item>, i: nat)
    requires m.Valid() && DistinctIds(items) && i < |items| && items[i].emergency
    requires Demand(m, items) <= MAX_TRACKED_EMERGENCY_HEADLINES
    ensures var r := Put(m, MAX_TRACKED_EMERGENCY_HEADLINES, items[i]);
            && (forall id :: Lookup(r, id) == if id == items[i].id then Some(items[i].content) else Lookup(m, id))
            && Demand(r, items) <= Demand(m, items)
  {
    hide Put, NewKeys;
    var k := items[i].id;
    NewKeysAfterPut(m, m.Put(k, items[i].content), items, i, |items|);
    PutWithRoom(m, MAX_TRACKED_EMERGENCY_HEADLINES, items[i]);
    var r := Put(m, MAX_TRACKED_EMERGENCY_HEADLINES, items[i]);
    forall id
      ensures id in r.entries <==> id in m.entries || id == k
    {
      assert Lookup(r, id) == if id == k then Some(items[i].content) else Lookup(m, id);
    }
    NewKeysAfterPut(m, r, items, i, |items|);
  }

  lemma OneMoreItem(n: News, items: seq<Item>, j: nat, r: News)
    requires n.announced.Valid() && DistinctIds(items) && j < |items|
    requires Demand(n.announced, items) <= MAX_TRACKED_EMERGENCY_HEADLINES
    requires r.published.Valid() && Progress(n, items, j, r)
    ensures Progress(n, items, j + 1, Process(r, items[j]))
  {
    hide Times, Put, Rank, Demand, ItemProgress;
    var item := items[j];
    var after := Process(r, item);
    RankStep(n.announced, items, j);
    NotYet(n, items, j, r);
    if Announces(r, item) {
      PutInFeed(r.announced, items, j);
    }
    var next := j + 1;
    forall i | 0 <= i < |items|
      ensures ItemProgress(n, items, i, next, after)
    {
      assert ItemProgress(n, items, i, j, r);
      ItemStep(n, items, i, j, r);
    }
  }

  lemma RankStep(m: Versions, items: seq<Item>, j: nat)
    requires j < |items|
    ensures Rank(m, items, j + 1) == Rank(m, items, j) + if Waiting(m, items[j]) then 1 else 0
  {
  }

  lemma NotYet(n: News, items: seq<Item>, j: nat, r: News)
    requires j < |items| && Progress(n, items, j, r)
    ensures Lookup(r.announced, items[j].id) == Lookup(n.announced, items[j].id)
    ensures Announces(r, items[j]) <==> Chosen(n.announced, items, j)
  {
    hide Times, Rank;
    assert ItemProgress(n, items, j, j, r);
  }

  lemma ItemStep(n: News, items: seq<Item>, i: nat, j: nat, r: News)
    requires r.announced.Valid() && r.published.Valid()
    requires DistinctIds(items) && i < |items| && j < |items| && ItemProgress(n, items, i, j, r)
    requires Announces(r, items[j]) <==> Chosen(n.announced, items, j)
    requires Demand(r.announced, items) <= MAX_TRACKED_EMERGENCY_HEADLINES
    ensures ItemProgress(n, items, i, j + 1, Process(r, items[j]))
  {
    hide Times, Put, Rank, Demand;
    if Announces(r, items[j]) {
      PutInFeed(r.announced, items, j);
      TimesSnoc(r.announcements, items[j], items[i]);
    }
  }

  lemma {:induction false} ProcessAllProgress(n: News, items: seq<Item>, j: nat)
    requires n.announced.Valid() && n.published.Valid() && n.count == 0 && DistinctIds(items) && j <= |items|
    requires Demand(n.announced, items) <= MAX_TRACKED_EMERGENCY_HEADLINES
    ensures Progress(n, items, j, ProcessAll(n, items[..j]))
  {
    hide Process, Times, Demand;
    if j > 0 {
      ProcessAllProgress(n, items, j - 1);
      OneMoreItem(n, items, j - 1, ProcessAll(n, items[..j - 1]));
      assert items[..j][..j - 1] == items[..j - 1];
    }
  }

  // One committed sync of the feed takes the five longest waiting, in feed order, off the list.
  lemma {:induction false} RankAfter(n: News, items: seq<Item>, r: News, j: nat)
    requires j <= |items| && Progress(n, items, |items|, r)
    ensures Rank(r.announced, items, j) == Rank(n.announced, items, j) - AtMostFive(Rank(n.announced, items, j))
  {
    hide Times, Demand;
    if j > 0 {
      RankAfter(n, items, r, j - 1);
      assert ItemProgress(n, items, j - 1, |items|, r);
    }
  }

  /** The news after `k` committed syncs of the same feed. */
  function Commits(n: News, items: seq<Item>, k: nat): (r: News)
    requires n.announced.Valid() && n.published.Valid()
    ensures r.announced.Valid() && r.published.Valid()
    decreases k
  {
    if k == 0 then n else Commits(Commit(n, items), items, k - 1)
  }

  // As long as the feed stays the same, each item waiting at the start is announced exactly once, in the
  // sync its place in the queue gives it, and an item not waiting is not announced at all.
  lemma {:induction false} EachAnnouncedOnce(n: News, items: seq<Item>, k: nat, i: nat)
    requires n.announced.Valid() && n.published.Valid() && DistinctIds(items) && i < |items|
    requires Demand(n.announced, items) <= MAX_TRACKED_EMERGENCY_HEADLINES
    ensures Times(Commits(n, items, k).announcements, items[i]) ==
            Times(n.announcements, items[i]) +
            if Waiting(n.announced, items[i]) && Rank(n.announced, items, i) < 5 * k
            then 1 else 0
    decreases k
  {
    hide Times, Rank, Demand, ProcessAll;
    if k > 0 {
      var start := n.(changed := [], count := 0);
      var r := Commit(n, items);
      ProcessAllProgress(start, items, |items|);
      assert items[..|items|] == items;
      RankAfter(start, items, r, i);
      assert ItemProgress(start, items, i, |items|, r);
      EachAnnouncedOnce(r, items, k - 1, i);
    }
  }

  lemma {:induction false} RankIsBounded(m: Versions, items: seq<Item>, i: nat, j: nat)
    requires i <= j <= |items|
    ensures Rank(m, items, i) + (if i < j && Waiting(m, items[i]) then 1 else 0) <= Rank(m, items, j)
    decreases j
  {
    if i < j {
      RankIsBounded(m, items, i, j - 1);
    }
  }

  /** The emergencies of a feed. */
  function Emergencies(items: seq<Item>): nat {
    if items == [] then 0 else Emergencies(items[..|items| - 1]) + if items[|items| - 1].emergency then 1 else 0
  }

  lemma {:induction false} NothingAnnouncedYet(m: Versions, items: seq<Item>, j: nat)
    requires m.entries == map[] && j <= |items|
    ensures Rank(m, items, j) == NewKeys(m, items, j) == Emergencies(items[..j])
  {
    if j > 0 {
      NothingAnnouncedYet(m, items, j - 1);
      assert items[..j][..j - 1] == items[..j - 1];
    }
  }

  // For a new gateway: with n distinct emergencies, at most 512, and an unchanged feed, ceil(n / 5)
  // committed syncs announce each of them exactly once, and any later ones announce none.
  lemma UnchangedFeed(items: seq<Item>, k: nat, i: nat)
    requires DistinctIds(items) && Emergencies(items) <= 512 && i < |items|
    requires k >= CeilDiv(Emergencies(items), 5)
    ensures Times(Commits(INITIAL.news, items, k).announcements, items[i]) == if items[i].emergency then 1 else 0
  {
    hide Times, Rank, NewKeys, Emergencies, Commits, CeilDiv;
    var m := INITIAL.news.announced;
    NothingAnnouncedYet(m, items, |items|);
    assert items[..|items|] == items;
    EachAnnouncedOnce(INITIAL.news, items, k, i);
    RankIsBounded(m, items, i, |items|);
    NoTimes(items[i]);
  }

  lemma NoTimes(item: Item)
    ensures Times([], item) == 0
  {
  }

  // ---- a feed with more emergencies than the map remembers

  /** The ids of the emergencies of a feed. */
  function EmergencyIds(items: seq<Item>): set<HeadlineId> {
    if items == [] then {}
    else
      var last := items[|items| - 1];
      EmergencyIds(items[..|items| - 1]) + if last.emergency then {last.id} else {}
  }

  lemma {:induction false} EmergencyIdsAre(items: seq<Item>)
    requires DistinctIds(items)
    ensures |EmergencyIds(items)| == Emergencies(items)
    ensures forall id :: id in EmergencyIds(items) ==>
              exists i :: 0 <= i < |items| && items[i].id == id && items[i].emergency
  {
    if items != [] {
      var past, last := items[..|items| - 1], items[|items| - 1];
      EmergencyIdsAre(past);
      forall id | id in EmergencyIds(items)
        ensures exists i :: 0 <= i < |items| && items[i].id == id && items[i].emergency
      {
        if id in EmergencyIds(past) {
          var i :| 0 <= i < |past| && past[i].id == id && past[i].emergency;
          assert items[i].id == id && items[i].emergency;
        } else {
          assert last.id == id && last.emergency;
        }
      }
    }
  }

  // The map cannot remember them all, so one of them always waits.
  lemma OneWaits(m: Versions, items: seq<Item>) returns (i: nat)
    requires m.Valid() && |m.order| <= MAX_TRACKED_EMERGENCY_HEADLINES && DistinctIds(items)
    requires Emergencies(items) > MAX_TRACKED_EMERGENCY_HEADLINES
    ensures i < |items| && Waiting(m, items[i])
  {
    hide Emergencies, EmergencyIds;
    EmergencyIdsAre(items);
    SizeIsOrder(m);
    if EmergencyIds(items) <= m.entries.Keys {
      SubsetSize(EmergencyIds(items), m.entries.Keys);
    }
    var id :| id in EmergencyIds(items) && id !in m.entries;
    i :| 0 <= i < |items| && items[i].id == id && items[i].emergency;
  }

  // A sync that starts with an item waiting announces something.
  lemma {:induction false} SyncAnnounces(n: News, items: seq<Item>, i: nat, j: nat)
    requires n.announced.Valid() && n.published.Valid() && n.count == 0 && j <= |items|
    requires i < |items| && Waiting(n.announced, items[i])
    ensures var r := ProcessAll(n, items[..j]);
            && |r.announcements| >= |n.announcements|
            && ((r.announced == n.announced && r.count == 0 && i >= j) || |r.announcements| > |n.announcements|)
    decreases j
  {
    hide Put, Process;
    if j > 0 {
      SyncAnnounces(n, items, i, j - 1);
      assert items[..j][..j - 1] == items[..j - 1];
      ProcessAnnounces(ProcessAll(n, items[..j - 1]), items[j - 1]);
    }
  }

  lemma ProcessAnnounces(n: News, item: Item)
    requires n.announced.Valid() && n.published.Valid()
    ensures var r := Process(n, item);
            && r.announcements == n.announcements + (if Announces(n, item) then [item] else [])
            && (!Announces(n, item) ==> r.announced == n.announced && r.count == n.count)
  {
    hide Put, Recorded;
  }

  lemma {:induction false} SyncsAnnounce(items: seq<Item>, k: nat)
    requires DistinctIds(items) && Emergencies(items) > MAX_TRACKED_EMERGENCY_HEADLINES
    ensures var n := Commits(INITIAL.news, items, k); |n.announcements| >= k && ValidNews(n)
  {
    hide Emergencies, ProcessAll, Announces;
    if k > 0 {
      SyncsAnnounce(items, k - 1);
      CommitsSnoc(INITIAL.news, items, k - 1);
      var n := Commits(INITIAL.news, items, k - 1);
      var i := OneWaits(n.announced, items);
      SyncAnnounces(n.(changed := [], count := 0), items, i, |items|);
      assert items[..|items|] == items;
      CommitKeepsBounds(n, items);
    }
  }

  /** How many of the broadcasts are of the first `j` items. */
  function TimesAll(log: seq<Item>, items: seq<Item>, j: nat): nat
    requires j <= |items|
  {
    if j == 0 then 0 else TimesAll(log, items, j - 1) + Times(log, items[j - 1])
  }

  ghost predicate AllFrom(log: seq<Item>, items: seq<Item>) {
    forall x :: x in log ==> x in items
  }

  lemma {:induction false} TimesAllIsLength(log: seq<Item>, items: seq<Item>)
    requires DistinctIds(items) && AllFrom(log, items)
    ensures TimesAll(log, items, |items|) == |log|
  {
    if log == [] {
      NothingInAll(items, |items|);
    } else {
      var past, last := log[..|log| - 1], log[|log| - 1];
      TimesAllIsLength(past, items);
      assert last in log;
      var i :| 0 <= i < |items| && items[i] == last;
      OneMoreInAll(past, last, items, i, |items|);
      assert past + [last] == log;
    }
  }

  lemma {:induction false} NothingInAll(items: seq<Item>, j: nat)
    requires j <= |items|
    ensures TimesAll([], items, j) == 0
  {
    if j > 0 {
      NothingInAll(items, j - 1);
    }
  }

  lemma {:induction false} OneMoreInAll(log: seq<Item>, last: Item, items: seq<Item>, i: nat, j: nat)
    requires DistinctIds(items) && i < |items| && items[i] == last && j <= |items|
    ensures TimesAll(log + [last], items, j) == TimesAll(log, items, j) + if i < j then 1 else 0
  {
    if j > 0 {
      OneMoreInAll(log, last, items, i, j - 1);
      TimesSnoc(log, last, items[j - 1]);
    }
  }

  lemma {:induction false} AtMostOneEach(log: seq<Item>, items: seq<Item>, j: nat)
    requires j <= |items| && forall i :: 0 <= i < |items| ==> Times(log, items[i]) <= 1
    ensures TimesAll(log, items, j) <= j
  {
    if j > 0 {
      AtMostOneEach(log, items, j - 1);
    }
  }

  lemma {:induction false} AnnouncedFrom(n: News, items: seq<Item>, all: seq<Item>)
    requires n.announced.Valid() && n.published.Valid() && AllFrom(n.announcements, all) && AllFrom(items, all)
    ensures AllFrom(ProcessAll(n, items).announcements, all)
  {
    hide Process;
    if items != [] {
      AnnouncedFrom(n, items[..|items| - 1], all);
      ProcessAnnounces(ProcessAll(n, items[..|items| - 1]), items[|items| - 1]);
    }
  }

  lemma {:induction false} CommitsAnnounceFrom(items: seq<Item>, k: nat)
    ensures AllFrom(Commits(INITIAL.news, items, k).announcements, items)
  {
    hide ProcessAll;
    if k > 0 {
      CommitsAnnounceFrom(items, k - 1);
      CommitsSnoc(INITIAL.news, items, k - 1);
      AnnouncedFrom(Commits(INITIAL.news, items, k - 1).(changed := [], count := 0), items, items);
    }
  }

  /** How often an item has been announced after `k` committed syncs of its unchanged feed. */
  function Announced(items: seq<Item>, k: nat, i: nat): nat
    requires i < |items|
  {
    Times(Commits(INITIAL.news, items, k).announcements, items[i])
  }

  ghost predicate NeverRepeated(items: seq<Item>) {
    forall k: nat, i: nat :: i < |items| ==> Announced(items, k, i) <= 1
  }

  // An unchanged feed of a new gateway is announced without repetition, for ever, exactly if the map of
  // announced emergencies has room for all of its emergencies.
  lemma NeverRepeatedExactlyUpTo512(items: seq<Item>)
    requires DistinctIds(items)
    ensures NeverRepeated(items) <==> Emergencies(items) <= 512
  {
    hide Emergencies, Commits, Times;
    if Emergencies(items) <= MAX_TRACKED_EMERGENCY_HEADLINES {
      forall k: nat, i: nat | i < |items|
        ensures Announced(items, k, i) <= 1
      {
        NothingAnnouncedYet(INITIAL.news.announced, items, |items|);
        assert items[..|items|] == items;
        EachAnnouncedOnce(INITIAL.news, items, k, i);
        NoTimes(items[i]);
      }
    } else {
      var k := |items| + 1;
      var log := Commits(INITIAL.news, items, k).announcements;
      SyncsAnnounce(items, k);
      CommitsAnnounceFrom(items, k);
      TimesAllIsLength(log, items);
      if NeverRepeated(items) {
        forall i: nat | i < |items|
          ensures Times(log, items[i]) <= 1
        {
          assert Announced(items, k, i) <= 1;
        }
        AtMostOneEach(log, items, |items|);
      }
    }
  }

  /** Every feed that arrives is this one. */
  ghost predicate SameFeed(events: seq<Event>, items: seq<Item>) {
    forall i :: 0 <= i < |events| ==>
      match events[i]
      case FeedArrives(_, feed) => feed.Some? ==> feed.value == items
      case Starts => true
  }

  lemma {:induction false} CommitsSnoc(n: News, items: seq<Item>, k: nat)
    requires n.announced.Valid() && n.published.Valid()
    ensures Commits(n, items, k + 1) == Commit(Commits(n, items, k), items)
    decreases k
  {
    hide Commit;
    if k > 0 {
      CommitsSnoc(Commit(n, items), items, k - 1);
    }
  }

  // However its syncs overlap, fail or overtake each other, a gateway whose feed stays the same has
  // done exactly its committed syncs, one after the other.
  lemma {:induction false} RunIsItsCommits(events: seq<Event>, items: seq<Item>)
    requires SameFeed(events, items)
    ensures Run(events).news == Commits(INITIAL.news, items, |Run(events).committed|)
  {
    hide Commit;
    if events != [] {
      var past := events[..|events| - 1];
      RunIsItsCommits(past, items);
      CommitsSnoc(INITIAL.news, items, |Run(past).committed|);
      var e := events[|events| - 1];
      assert e.FeedArrives? && e.feed.Some? ==> e.feed.value == items;
    }
  }

  // ---------------------------------------------------------------- what a sync reports

  /** The feeds a run has committed, in order. */
  function CommittedFeeds(events: seq<Event>): seq<seq<Item>> {
    if events == [] then []
    else
      var past, e := events[..|events| - 1], events[|events| - 1];
      CommittedFeeds(past) + if IsCommitted(Run(past), e) then [e.feed.value] else []
  }

  /** The event brings the feed of the sync started last. */
  predicate IsCommitted(s: State, e: Event) {
    e.FeedArrives? && e.generation in s.fetching && e.generation == s.generation && e.feed.Some?
  }

  function AfterFeeds(feeds: seq<seq<Item>>): (n: News)
    ensures n.announced.Valid() && n.published.Valid()
  {
    if feeds == [] then INITIAL.news else Commit(AfterFeeds(feeds[..|feeds| - 1]), feeds[|feeds| - 1])
  }

  // However its syncs overlap, fail or overtake each other, a gateway stands where its committed feeds
  // have left it, and serves the last of them.
  lemma {:induction false} RunIsItsFeeds(events: seq<Event>)
    ensures var s, feeds := Run(events), CommittedFeeds(events);
            && s.news == AfterFeeds(feeds) && |s.committed| == |feeds|
            && s.cached == if feeds == [] then [] else feeds[|feeds| - 1]
  {
    hide Commit, AfterFeeds, Step;
    if events == [] {
      AfterNone();
    } else {
      var past, e := events[..|events| - 1], events[|events| - 1];
      RunIsItsFeeds(past);
      StepCommits(Run(past), e);
      if IsCommitted(Run(past), e) {
        AfterOne(CommittedFeeds(past), e.feed.value);
      } else {
        assert CommittedFeeds(past) + [] == CommittedFeeds(past);
      }
    }
  }

  lemma StepCommits(s: State, e: Event)
    requires s.news.announced.Valid() && s.news.published.Valid()
    ensures var n := Step(s, e);
            if IsCommitted(s, e) then
              && n.news == Commit(s.news, e.feed.value) && n.cached == e.feed.value
              && |n.committed| == |s.committed| + 1
            else n.news == s.news && n.cached == s.cached && n.committed == s.committed
  {
    hide Commit;
  }

  lemma AfterNone()
    ensures AfterFeeds([]) == INITIAL.news
  {
  }

  lemma AfterOne(feeds: seq<seq<Item>>, items: seq<Item>)
    ensures AfterFeeds(feeds + [items]) == Commit(AfterFeeds(feeds), items)
  {
    assert (feeds + [items])[..|feeds|] == feeds;
  }

  /** The content a feed gives an id. */
  function ContentIn(items: seq<Item>, id: HeadlineId): Option<ContentId> {
    if items == [] then None
    else if items[|items| - 1].id == id then Some(items[|items| - 1].content)
    else ContentIn(items[..|items| - 1], id)
  }

  /** The content the latest of these feeds that has the id gives it. */
  function LastIn(feeds: seq<seq<Item>>, id: HeadlineId): Option<ContentId> {
    if feeds == [] then None
    else
      var c := ContentIn(feeds[|feeds| - 1], id);
      if c.Some? then c else LastIn(feeds[..|feeds| - 1], id)
  }

  /** The items whose content is not the one they had last, in feed order. */
  function Changes(feeds: seq<seq<Item>>, items: seq<Item>): seq<Item> {
    if items == [] then []
    else
      var last := items[|items| - 1];
      Changes(feeds, items[..|items| - 1]) + if LastIn(feeds, last.id) == Some(last.content) then [] else [last]
  }

  function IdsIn(items: seq<Item>): set<HeadlineId> {
    set i | 0 <= i < |items| :: items[i].id
  }

  function AllIds(feeds: seq<seq<Item>>): set<HeadlineId> {
    if feeds == [] then {} else AllIds(feeds[..|feeds| - 1]) + IdsIn(feeds[|feeds| - 1])
  }

  /** The map remembers exactly what these feeds and then these items have published. */
  ghost predicate Remembers(m: Versions, feeds: seq<seq<Item>>, items: seq<Item>) {
    && m.Valid() && m.entries.Keys <= AllIds(feeds) + IdsIn(items)
    && forall id :: Lookup(m, id) ==
         var c := ContentIn(items, id); if c.Some? then c else LastIn(feeds, id)
  }

  lemma ProcessReports(n: News, feeds: seq<seq<Item>>, items: seq<Item>)
    requires items != [] && n.announced.Valid() && n.published.Valid() && DistinctIds(items)
    requires var past := items[..|items| - 1];
             Remembers(n.published, feeds, past) && n.changed == Changes(feeds, past)
    requires |AllIds(feeds) + IdsIn(items)| <= MAX_TRACKED_HEADLINES
    ensures var r := Process(n, items[|items| - 1]);
            Remembers(r.published, feeds, items) && r.changed == Changes(feeds, items)
  {
    hide LastIn, Put, Recorded, Remembers, AllIds, IdsIn;
    var last := items[|items| - 1];
    RecordedIsLast(n.published, feeds, items);
    if Recorded(n.published, last) {
      RecordedIsRemembered(n.published, feeds, items);
    } else {
      PutIsRemembered(n.published, feeds, items);
    }
  }

  lemma RecordedIsLast(m: Versions, feeds: seq<seq<Item>>, items: seq<Item>)
    requires items != [] && DistinctIds(items) && Remembers(m, feeds, items[..|items| - 1])
    ensures var last := items[|items| - 1]; Recorded(m, last) <==> LastIn(feeds, last.id) == Some(last.content)
  {
    hide LastIn, AllIds, IdsIn;
    NotInPast(items[..|items| - 1], items[|items| - 1].id);
  }

  lemma RecordedIsRemembered(m: Versions, feeds: seq<seq<Item>>, items: seq<Item>)
    requires items != [] && Remembers(m, feeds, items[..|items| - 1]) && Recorded(m, items[|items| - 1])
    ensures Remembers(m, feeds, items)
  {
    hide LastIn, AllIds;
    assert IdsIn(items[..|items| - 1]) <= IdsIn(items);
  }

  lemma PutIsRemembered(m: Versions, feeds: seq<seq<Item>>, items: seq<Item>)
    requires items != [] && Remembers(m, feeds, items[..|items| - 1])
    requires |AllIds(feeds) + IdsIn(items)| <= MAX_TRACKED_HEADLINES
    ensures Remembers(Put(m, MAX_TRACKED_HEADLINES, items[|items| - 1]), feeds, items)
  {
    hide LastIn, AllIds, Put;
    var last := items[|items| - 1];
    assert last.id in IdsIn(items) && IdsIn(items[..|items| - 1]) <= IdsIn(items);
    RoomForNew(m, last.id, AllIds(feeds) + IdsIn(items));
    PutWithRoom(m, MAX_TRACKED_HEADLINES, last);
    PutKeys(m, last);
  }

  lemma PutKeys(m: Versions, item: Item)
    requires m.Valid()
    ensures Put(m, MAX_TRACKED_HEADLINES, item).entries.Keys <= m.entries.Keys + {item.id}
  {
  }

  lemma {:induction false} NotInPast(items: seq<Item>, id: HeadlineId)
    requires forall i :: 0 <= i < |items| ==> items[i].id != id
    ensures ContentIn(items, id) == None
  {
    if items != [] {
      NotInPast(items[..|items| - 1], id);
    }
  }

  lemma RoomForNew(m: Versions, id: HeadlineId, all: set<HeadlineId>)
    requires m.Valid() && m.entries.Keys + {id} <= all && |all| <= MAX_TRACKED_HEADLINES
    ensures id in m.entries || |m.order| < MAX_TRACKED_HEADLINES
  {
    SubsetSize(m.entries.Keys + {id}, all);
    SizeIsOrder(m);
    if id !in m.entries {
      assert |m.entries.Keys + {id}| == |m.entries| + 1;
    }
  }

  lemma {:induction false} ProcessAllReports(n: News, feeds: seq<seq<Item>>, items: seq<Item>)
    requires n.announced.Valid() && n.published.Valid() && n.changed == [] && Remembers(n.published, feeds, [])
    requires DistinctIds(items) && |AllIds(feeds) + IdsIn(items)| <= MAX_TRACKED_HEADLINES
    ensures var r := ProcessAll(n, items);
            Remembers(r.published, feeds, items) && r.changed == Changes(feeds, items)
  {
    hide Process, Remembers, AllIds, LastIn;
    if items != [] {
      var past := items[..|items| - 1];
      SubsetSize(AllIds(feeds) + IdsIn(past), AllIds(feeds) + IdsIn(items));
      ProcessAllReports(n, feeds, past);
      ProcessReports(ProcessAll(n, past), feeds, items);
    }
  }

  lemma {:induction false} FeedsAreRemembered(feeds: seq<seq<Item>>)
    requires forall f :: f in feeds ==> DistinctIds(f)
    requires |AllIds(feeds)| <= MAX_TRACKED_HEADLINES
    ensures Remembers(AfterFeeds(feeds).published, feeds, [])
    ensures feeds != [] ==> AfterFeeds(feeds).changed == Changes(feeds[..|feeds| - 1], feeds[|feeds| - 1])
  {
    hide ProcessAll, Changes, Remembers;
    if feeds == [] {
      NothingRemembered();
    } else {
      var past, items := feeds[..|feeds| - 1], feeds[|feeds| - 1];
      SubsetSize(AllIds(past), AllIds(feeds));
      FeedsAreRemembered(past);
      ProcessAllReports(AfterFeeds(past).(changed := [], count := 0), past, items);
      FeedIsPast(AfterFeeds(feeds).published, feeds);
    }
  }

  lemma NothingRemembered()
    ensures Remembers(AfterFeeds([]).published, [], [])
  {
  }

  lemma FeedIsPast(m: Versions, feeds: seq<seq<Item>>)
    requires feeds != [] && Remembers(m, feeds[..|feeds| - 1], feeds[|feeds| - 1])
    ensures Remembers(m, feeds, [])
  {
  }

  // Over every run whose feeds list no id twice and at most 4096 different ones, a committed sync reports
  // exactly the items whose content is not the one last published under their id, in feed order.
  lemma ReportIsTheChanges(events: seq<Event>, g: nat, items: seq<Item>)
    requires var e := FeedArrives(g, Some(items)); IsCommitted(Run(events), e)
    requires var feeds := CommittedFeeds(events);
             && (forall f :: f in feeds + [items] ==> DistinctIds(f))
             && |AllIds(feeds + [items])| <= 4096
    ensures Step(Run(events), FeedArrives(g, Some(items))).news.changed == Changes(CommittedFeeds(events), items)
  {
    hide Run, Commit;
    var feeds := CommittedFeeds(events);
    RunIsItsFeeds(events);
    FeedsAreRemembered(feeds + [items]);
    assert (feeds + [items])[..|feeds|] == feeds;
  }

  // So the first sync of a feed reports all of it, one that finds the feed of the last sync again reports
  // nothing, and an item whose content has changed is reported once.
  lemma FirstAndRepeatedFeeds(feeds: seq<seq<Item>>, items: seq<Item>)
    requires DistinctIds(items)
    ensures Changes([], items) == items
    ensures Changes(feeds + [items], items) == []
  {
    AllNew(items);
    NoneNew(feeds, items, items);
  }

  lemma {:induction false} AllNew(items: seq<Item>)
    ensures Changes([], items) == items
  {
    if items != [] {
      AllNew(items[..|items| - 1]);
    }
  }

  lemma {:induction false} NoneNew(feeds: seq<seq<Item>>, all: seq<Item>, items: seq<Item>)
    requires DistinctIds(all) && items <= all
    ensures Changes(feeds + [all], items) == []
  {
    if items != [] {
      var n := |items| - 1;
      NoneNew(feeds, all, items[..n]);
      ContentAt(all, n);
      assert (feeds + [all])[|feeds|] == all && all[n] == items[n];
    }
  }

  lemma {:induction false} ContentAt(items: seq<Item>, i: nat)
    requires DistinctIds(items) && i < |items|
    ensures ContentIn(items, items[i].id) == Some(items[i].content)
  {
    if i < |items| - 1 {
      ContentAt(items[..|items| - 1], i);
    }
  }

  /** What the k-th sync of an unchanged feed reports. */
  function ReportOf(items: seq<Item>, k: nat): seq<Item> {
    AfterFeeds(seq(k, _ => items)).changed
  }

  // Every sync of an unchanged feed after the first reports nothing, for ever, exactly if the map of
  // published items has room for all of it.
  lemma NothingNewExactlyUpTo4096(items: seq<Item>)
    requires DistinctIds(items)
    ensures (forall k: nat :: k > 1 ==> ReportOf(items, k) == []) <==> |items| <= 4096
  {
    hide AfterFeeds, Changes;
    if |items| <= MAX_TRACKED_HEADLINES {
      forall k: nat | k > 1
        ensures ReportOf(items, k) == []
      {
        SameIds(items, k);
        FeedsAreRemembered(seq(k, _ => items));
        var past := seq(k - 1, _ => items);
        assert seq(k, _ => items)[..k - 1] == past;
        assert past == seq(k - 2, _ => items) + [items];
        FirstAndRepeatedFeeds(seq(k - 2, _ => items), items);
      }
    } else {
      SomethingReported(items);
      assert ReportOf(items, 2) != [];
    }
  }

  lemma {:induction false} SameIds(items: seq<Item>, k: nat)
    requires |items| <= MAX_TRACKED_HEADLINES
    ensures |AllIds(seq(k, _ => items))| <= MAX_TRACKED_HEADLINES && AllIds(seq(k, _ => items)) <= IdsIn(items)
  {
    IdsCount(items);
    if k > 0 {
      SameIds(items, k - 1);
      assert seq(k, _ => items)[..k - 1] == seq(k - 1, _ => items);
    }
    SubsetSize(AllIds(seq(k, _ => items)), IdsIn(items));
  }

  lemma {:induction false} IdsCount(items: seq<Item>)
    ensures |IdsIn(items)| <= |items|
    ensures DistinctIds(items) ==> |IdsIn(items)| == |items|
  {
    if items != [] {
      var past, last := items[..|items| - 1], items[|items| - 1];
      IdsCount(past);
      assert IdsIn(items) == IdsIn(past) + {last.id};
    }
  }

  lemma SomethingReported(items: seq<Item>)
    requires DistinctIds(items) && |items| > MAX_TRACKED_HEADLINES
    ensures ReportOf(items, 2) != []
  {
    hide ProcessAll;
    var once, twice := seq(1, _ => items), seq(2, _ => items);
    assert twice[..1] == once && once[..0] == [];
    var n := AfterFeeds(once);
    AfterNone();
    assert n == Commit(INITIAL.news, items);
    CommitKeepsBounds(INITIAL.news, items);
    IdsCount(items);
    SizeIsOrder(n.published);
    if IdsIn(items) <= n.published.entries.Keys {
      SubsetSize(IdsIn(items), n.published.entries.Keys);
    }
    var id :| id in IdsIn(items) && id !in n.published.entries;
    var i :| 0 <= i < |items| && items[i].id == id;
    UnknownIsReported(n.(changed := [], count := 0), items, i, |items|);
    assert items[..|items|] == items;
  }

  lemma {:induction false} UnknownIsReported(n: News, items: seq<Item>, i: nat, j: nat)
    requires n.announced.Valid() && n.published.Valid() && n.changed == [] && j <= |items|
    requires i < |items| && !Recorded(n.published, items[i])
    ensures var r := ProcessAll(n, items[..j]);
            (r.published == n.published && i >= j) || r.changed != []
    decreases j
  {
    hide Put;
    if j > 0 {
      UnknownIsReported(n, items, i, j - 1);
      assert items[..j][..j - 1] == items[..j - 1];
    }
  }

  // ---------------------------------------------------------------- the gateway

  class NewsGateway {
    var syncGeneration: nat
    var fetching: set<nat>
    const announcedEmergencyById: BoundedFifoMap<HeadlineId, ContentId>
    const publishedById: BoundedFifoMap<HeadlineId, ContentId>
    var cachedHeadlines: seq<Item>
    var changed: seq<Item>  // the running sync's result
    var emergencyAnnouncesThisSync: nat
    ghost var announcements: seq<Item>
    ghost var committed: seq<nat>
    ghost var history: seq<Event>

    ghost function NewsNow(): News
      reads this, announcedEmergencyById, publishedById
    {
      News(announcedEmergencyById.contents, publishedById.contents, announcements, changed, emergencyAnnouncesThisSync)
    }

    ghost function Now(): State
      reads this, announcedEmergencyById, publishedById
    {
      State(syncGeneration, fetching, NewsNow(), cachedHeadlines, committed)
    }

    ghost predicate MapsOk()
      reads this, announcedEmergencyById, publishedById
    {
      && announcedEmergencyById != publishedById
      && announcedEmergencyById.Valid() && announcedEmergencyById.maxSize == MAX_TRACKED_EMERGENCY_HEADLINES
      && publishedById.Valid() && publishedById.maxSize == MAX_TRACKED_HEADLINES
    }

    ghost predicate Valid()
      reads this, announcedEmergencyById, publishedById
    {
      MapsOk() && Now() == Run(history)
    }

    constructor ()
      ensures Valid() && history == [] && fresh(announcedEmergencyById) && fresh(publishedById)
    {
      announcedEmergencyById := new BoundedFifoMap(MAX_TRACKED_EMERGENCY_HEADLINES);
      publishedById := new BoundedFifoMap(MAX_TRACKED_HEADLINES);
      syncGeneration, fetching, cachedHeadlines, changed, emergencyAnnouncesThisSync := 0, {}, [], [], 0;
      announcements, committed, history := [], [], [];
    }

    /** `syncNews` up to its await. */
    method StartSync() returns (generation: nat)
      requires Valid()
      modifies this
      ensures Valid() && history == old(history) + [Starts] && generation == syncGeneration
    {
      hide Run;
      RunSnoc(history, Starts);
      history := history + [Starts];
      syncGeneration := syncGeneration + 1;
      generation := syncGeneration;
      fetching := fetching + {generation};
    }

    /** One pass of the publishing loop. */
    method Publish(headline: Item)
      requires MapsOk()
      modifies this`changed, this`emergencyAnnouncesThisSync, this`announcements, announcedEmergencyById, publishedById
      ensures MapsOk() && NewsNow() == Process(old(NewsNow()), headline)
    {
      hide Set, Evicted;
      var last := publishedById.Get(headline.id);
      var isChanged := last != Some(headline.content);
      var announced := announcedEmergencyById.Get(headline.id);
      var alreadyAnnouncedThisVersion := announced == Some(headline.content);
      if !alreadyAnnouncedThisVersion && headline.emergency &&
         emergencyAnnouncesThisSync < MAX_EMERGENCY_ANNOUNCES_PER_SYNC {
        emergencyAnnouncesThisSync := emergencyAnnouncesThisSync + 1;
        var gone := announcedEmergencyById.Put(headline.id, headline.content, Oldest);
        announcements := announcements + [headline];
      }
      if isChanged {
        var gone := publishedById.Put(headline.id, headline.content, Oldest);
        changed := changed + [headline];
      }
    }

    /** The rest of `syncNews`, when its feed has arrived. */
    method FinishSync(generation: nat, feed: Option<seq<Item>>) returns (report: seq<Item>)
      requires Valid() && generation in fetching
      modifies this, announcedEmergencyById, publishedById
      ensures Valid() && history == old(history) + [FeedArrives(generation, feed)]
      ensures report == if feed.Some? && generation == syncGeneration then changed else []
    {
      hide Run, Process;
      RunSnoc(history, FeedArrives(generation, feed));
      history := history + [FeedArrives(generation, feed)];
      fetching := fetching - {generation};
      if feed.None? || generation != syncGeneration { return []; }
      PublishAll(feed.value);
      cachedHeadlines := feed.value;
      committed := committed + [generation];
      report := changed;
    }

    method PublishAll(items: seq<Item>)
      requires MapsOk()
      modifies this`changed, this`emergencyAnnouncesThisSync, this`announcements, announcedEmergencyById, publishedById
      ensures MapsOk() && NewsNow() == Commit(old(NewsNow()), items)
    {
      hide Process;
      ghost var start := NewsNow().(changed := [], count := 0);
      changed := [];
      emergencyAnnouncesThisSync := 0;
      for i := 0 to |items|
        invariant MapsOk() && NewsNow() == ProcessAll(start, items[..i])
      {
        assert items[..i + 1][..i] == items[..i];
        Publish(items[i]);
      }
      assert items[..|items|] == items;
    }
  }

  lemma RunSnoc(events: seq<Event>, e: Event)
    ensures Run(events + [e]) == Step(Run(events), e)
  {
    assert (events + [e])[..|events|] == events;
  }
}
