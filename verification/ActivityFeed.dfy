/**
 * The paged activity feed (backend/app/routers/activity.py): four queries, each capped,
 * merged and sorted in memory, then sliced into a page.
 */
module ActivityFeed {
  import opened Wrappers
  import opened Sorting
  import opened Text

  type Time = nat

  /** An entry of the feed; an absent timestamp sorts below every other. */
  datatype FeedEvent = FeedEvent(kind: string, subject: nat, timestamp: Option<Time>)

  /** A completed, failed or expired topic. */
  datatype ClosedTopic = ClosedTopic(topicId: nat, status: string, updatedAt: Time, closedAt: Option<Time>)

  /** The rows of the four queries, unlimited, each in its ORDER BY. */
  datatype Streams = Streams(sent: seq<FeedEvent>, received: seq<FeedEvent>, created: seq<FeedEvent>,
                             closed: seq<ClosedTopic>)

  datatype Page = Page(items: seq<FeedEvent>, hasMore: bool)

  function SortKey(e: FeedEvent): int {
    if e.timestamp.Some? then e.timestamp.value else -1
  }

  /** Descending by timestamp, as `events.sort(key=…, reverse=True)`, which is stable. */
  predicate NotOlder(a: FeedEvent, b: FeedEvent) {
    SortKey(a) >= SortKey(b)
  }

  function ClosedEvent(t: ClosedTopic): FeedEvent {
    FeedEvent("topic_" + t.status, t.topicId, if t.closedAt.Some? then t.closedAt else Some(t.updatedAt))
  }

  function ClosedEvents(topics: seq<ClosedTopic>): seq<FeedEvent> {
    seq(|topics|, i requires 0 <= i < |topics| => ClosedEvent(topics[i]))
  }

  /** LIMIT n */
  function Take<T>(n: nat, s: seq<T>): seq<T> {
    if |s| <= n then s else s[..n]
  }

  /** Python's s[from : to], which clips at the ends. */
  function Slice<T>(s: seq<T>, from: nat, to: nat): seq<T>
    requires from <= to
  {
    if |s| <= from then [] else Take(to, s)[from..]
  }

  function Gather(streams: Streams): seq<FeedEvent> {
    streams.sent + streams.received + streams.created + ClosedEvents(streams.closed)
  }

  function Capped(streams: Streams, cap: nat): Streams {
    Streams(Take(cap, streams.sent), Take(cap, streams.received), Take(cap, streams.created), Take(cap, streams.closed))
  }

  function Cap(limit: nat, offset: nat): nat {
    limit + offset + 20
  }

  /** A page of the given events. */
  function PageOf(events: seq<FeedEvent>, limit: nat, offset: nat): Page {
    Page(Slice(StableSort(events, NotOlder), offset, offset + limit), |events| > offset + limit)
  }

  /** What the endpoint answers. */
  function Feed(streams: Streams, limit: nat, offset: nat): Page {
    PageOf(Gather(Capped(streams, Cap(limit, offset))), limit, offset)
  }

  /** What it would answer without caps. */
  function FullFeed(streams: Streams, limit: nat, offset: nat): Page {
    PageOf(Gather(streams), limit, offset)
  }

  method GetActivityFeed(streams: Streams, limit: nat, offset: nat) returns (page: Page)
    ensures page == Feed(streams, limit, offset)
  {
    var cap := limit + offset + 20;
    var rows := Capped(streams, cap);
    var events: seq<FeedEvent> := [];
    for i := 0 to |rows.sent|
      invariant events == rows.sent[0..i]
    {
      Extend(rows.sent, 0, i);
      events := events + [rows.sent[i]];
    }
    for i := 0 to |rows.received|
      invariant events == rows.sent + rows.received[0..i]
    {
      Extend(rows.received, 0, i);
      Assoc(rows.sent, rows.received[0..i], [rows.received[i]]);
      events := events + [rows.received[i]];
    }
    for i := 0 to |rows.created|
      invariant events == rows.sent + rows.received + rows.created[0..i]
    {
      Extend(rows.created, 0, i);
      Assoc(rows.sent + rows.received, rows.created[0..i], [rows.created[i]]);
      events := events + [rows.created[i]];
    }
    for i := 0 to |rows.closed|
      invariant events == rows.sent + rows.received + rows.created + ClosedEvents(rows.closed[0..i])
    {
      OneMoreClosed(rows.closed, i);
      Assoc(rows.sent + rows.received + rows.created, ClosedEvents(rows.closed[0..i]), [ClosedEvent(rows.closed[i])]);
      var topic := rows.closed[i];
      var timestamp := if topic.closedAt.Some? then topic.closedAt.value else topic.updatedAt;
      events := events + [FeedEvent("topic_" + topic.status, topic.topicId, Some(timestamp))];
    }
    assert rows.closed[0..|rows.closed|] == rows.closed;
    assert events == Gather(rows);
    var total := |events|;
    events := StableSort(events, NotOlder);
    page := Page(Slice(events, offset, offset + limit), total > offset + limit);
  }

  lemma OneMoreClosed(closed: seq<ClosedTopic>, i: nat)
    requires i < |closed|
    ensures ClosedEvents(closed[0..i + 1]) == ClosedEvents(closed[0..i]) + [ClosedEvent(closed[i])]
  {
  }

  // ----- Capping before merging -----

  lemma NotOlderIsTotal()
    ensures TotalPreorder(NotOlder)
  {
  }

  lemma SameHead(m: nat, x: FeedEvent, s: seq<FeedEvent>, t: seq<FeedEvent>)
    requires m > 0 && Take(m - 1, s) == Take(m - 1, t)
    ensures Take(m, [x] + s) == Take(m, [x] + t)
  {
    TakeCons(m, x, s);
    TakeCons(m, x, t);
  }

  lemma TakeCons(m: nat, x: FeedEvent, s: seq<FeedEvent>)
    requires m > 0
    ensures Take(m, [x] + s) == [x] + Take(m - 1, s)
  {
  }

  /** Both merges begin on the left. */
  lemma LeftFirst(m: nat, a: seq<FeedEvent>, b: seq<FeedEvent>, a': seq<FeedEvent>, b': seq<FeedEvent>)
    requires m > 0 && a != [] && b != [] && a' != [] && b' != []
    requires a'[0] == a[0] && b'[0] == b[0] && NotOlder(a[0], b[0])
    requires Take(m - 1, Merge(a[1..], b, NotOlder)) == Take(m - 1, Merge(a'[1..], b', NotOlder))
    ensures Take(m, Merge(a, b, NotOlder)) == Take(m, Merge(a', b', NotOlder))
  {
    var s, t := Merge(a[1..], b, NotOlder), Merge(a'[1..], b', NotOlder);
    SameHead(m, a[0], s, t);
    assert Merge(a, b, NotOlder) == [a[0]] + s && Merge(a', b', NotOlder) == [a[0]] + t;
  }

  lemma RightFirst(m: nat, a: seq<FeedEvent>, b: seq<FeedEvent>, a': seq<FeedEvent>, b': seq<FeedEvent>)
    requires m > 0 && a != [] && b != [] && a' != [] && b' != []
    requires a'[0] == a[0] && b'[0] == b[0] && !NotOlder(a[0], b[0])
    requires Take(m - 1, Merge(a, b[1..], NotOlder)) == Take(m - 1, Merge(a', b'[1..], NotOlder))
    ensures Take(m, Merge(a, b, NotOlder)) == Take(m, Merge(a', b', NotOlder))
  {
    var s, t := Merge(a, b[1..], NotOlder), Merge(a', b'[1..], NotOlder);
    SameHead(m, b[0], s, t);
    assert Merge(a, b, NotOlder) == [b[0]] + s && Merge(a', b', NotOlder) == [b[0]] + t;
  }

  lemma NothingTaken<T>(s: seq<T>)
    ensures Take(0, s) == []
  {
  }

  lemma MergeWithNone(a: seq<FeedEvent>)
    ensures Merge(a, [], NotOlder) == a && Merge([], a, NotOlder) == a
  {
  }

  lemma TakeTwice<T>(m: nat, c: nat, s: seq<T>)
    requires m <= c
    ensures Take(m, Take(c, s)) == Take(m, s)
  {
  }

  lemma TakeTail<T>(m: nat, s: seq<T>)
    requires m > 0 && s != []
    ensures Take(m, s) != [] && Take(m, s)[0] == s[0] && Take(m, s)[1..] == Take(m - 1, s[1..])
  {
  }

  /** The first m of a merge need only the first m of each side. */
  lemma {:induction false} TakeOfMerge(m: nat, a: seq<FeedEvent>, b: seq<FeedEvent>, c: nat, d: nat)
    requires m <= c && m <= d
    ensures Take(m, Merge(a, b, NotOlder)) == Take(m, Merge(Take(c, a), Take(d, b), NotOlder))
    decreases m
  {
    if m == 0 {
      NothingTaken(Merge(a, b, NotOlder));
      NothingTaken(Merge(Take(c, a), Take(d, b), NotOlder));
    } else if a == [] {
      MergeWithNone(b);
      MergeWithNone(Take(d, b));
      TakeTwice(m, d, b);
    } else if b == [] {
      MergeWithNone(a);
      MergeWithNone(Take(c, a));
      TakeTwice(m, c, a);
    } else {
      TakeTail(c, a);
      TakeTail(d, b);
      if NotOlder(a[0], b[0]) {
        TakeOfMerge(m - 1, a[1..], b, c - 1, d);
        LeftFirst(m, a, b, Take(c, a), Take(d, b));
      } else {
        TakeOfMerge(m - 1, a, b[1..], c, d - 1);
        RightFirst(m, a, b, Take(c, a), Take(d, b));
      }
    }
  }

  /** The first m of `short`, once sorted, are the first m of `whole`, once sorted. */
  ghost predicate SameTop(m: nat, short: seq<FeedEvent>, whole: seq<FeedEvent>) {
    Take(m, StableSort(short, NotOlder)) == Take(m, StableSort(whole, NotOlder))
  }

  lemma SameTopOfConcat(m: nat, short1: seq<FeedEvent>, whole1: seq<FeedEvent>, short2: seq<FeedEvent>,
        whole2: seq<FeedEvent>)
    requires SameTop(m, short1, whole1) && SameTop(m, short2, whole2)
    ensures SameTop(m, short1 + short2, whole1 + whole2)
  {
    NotOlderIsTotal();
    SortOfConcat(short1, short2, NotOlder);
    SortOfConcat(whole1, whole2, NotOlder);
    TakeOfMerge(m, StableSort(short1, NotOlder), StableSort(short2, NotOlder), m, m);
    TakeOfMerge(m, StableSort(whole1, NotOlder), StableSort(whole2, NotOlder), m, m);
  }

  /** A stream in the order of the final sort keeps its top under a cap. */
  lemma CapKeepsTop(m: nat, cap: nat, events: seq<FeedEvent>)
    requires m <= cap && (SortedBy(events, NotOlder) || |events| <= cap)
    ensures SameTop(m, Take(cap, events), events)
  {
    if |events| > cap {
      SortOfSorted(events, NotOlder);
      SortOfSorted(events[..cap], NotOlder);
    }
  }

  /** The three streams whose query sorts by the timestamp that the feed sorts by. */
  ghost predicate QueriesSorted(streams: Streams) {
    && SortedBy(streams.sent, NotOlder)
    && SortedBy(streams.received, NotOlder)
    && SortedBy(streams.created, NotOlder)
  }

  /** `has_more` is exact for every data set, whatever its order. */
  lemma HasMoreIsExact(streams: Streams, limit: nat, offset: nat)
    ensures Feed(streams, limit, offset).hasMore == FullFeed(streams, limit, offset).hasMore
  {
  }

  /** When closed topics are in timestamp order or all fit under the cap, the page is that of the whole feed. */
  lemma PageIsExact(streams: Streams, limit: nat, offset: nat)
    requires QueriesSorted(streams)
    requires SortedBy(ClosedEvents(streams.closed), NotOlder) || |streams.closed| <= Cap(limit, offset)
    ensures Feed(streams, limit, offset) == FullFeed(streams, limit, offset)
  {
    var cap, m := Cap(limit, offset), limit + offset;
    var rows := Capped(streams, cap);
    assert ClosedEvents(rows.closed) == Take(cap, ClosedEvents(streams.closed));
    CapKeepsTop(m, cap, streams.sent);
    CapKeepsTop(m, cap, streams.received);
    CapKeepsTop(m, cap, streams.created);
    CapKeepsTop(m, cap, ClosedEvents(streams.closed));
    SameTopOfConcat(m, rows.sent, streams.sent, rows.received, streams.received);
    SameTopOfConcat(m, rows.sent + rows.received, streams.sent + streams.received, rows.created, streams.created);
    SameTopOfConcat(m, rows.sent + rows.received + rows.created, streams.sent + streams.received + streams.created,
                    ClosedEvents(rows.closed), ClosedEvents(streams.closed));
    NotOlderIsTotal();
    SortIsSortedPermutation(Gather(rows), NotOlder);
    SortIsSortedPermutation(Gather(streams), NotOlder);
    HasMoreIsExact(streams, limit, offset);
    SliceOfTop(StableSort(Gather(rows), NotOlder), StableSort(Gather(streams), NotOlder), offset, m);
  }

  /** The events of a closed topic, at the time it was closed or else last updated. */
  predicate TellsOf(e: FeedEvent, t: ClosedTopic) {
    && e.kind == "topic_" + t.status && e.subject == t.topicId
    && e.timestamp == Some(if t.closedAt.Some? then t.closedAt.value else t.updatedAt)
  }

  /** All events, each stream and closed topic with all of its own, newest first. */
  ghost predicate IsTimeline(all: seq<FeedEvent>, streams: Streams, told: seq<FeedEvent>) {
    && multiset(all) == multiset(streams.sent) + multiset(streams.received) + multiset(streams.created) + multiset(told)
    && |told| == |streams.closed| && (forall i | 0 <= i < |told| :: TellsOf(told[i], streams.closed[i]))
    && (forall i, j | 0 <= i < j < |all| && all[j].timestamp.Some? ::
          all[i].timestamp.Some? && all[i].timestamp.value >= all[j].timestamp.value)
  }

  lemma GatheredIsTimeline(streams: Streams)
    ensures IsTimeline(StableSort(Gather(streams), NotOlder), streams, ClosedEvents(streams.closed))
  {
    var all := StableSort(Gather(streams), NotOlder);
    NotOlderIsTotal();
    SortIsSortedPermutation(Gather(streams), NotOlder);
    forall i, j | 0 <= i < j < |all| && all[j].timestamp.Some?
      ensures all[i].timestamp.Some? && all[i].timestamp.value >= all[j].timestamp.value
    {
      assert NotOlder(all[i], all[j]);
    }
  }

  /** Entry k of the page is entry offset + k of all there is, up to `limit` of them. */
  ghost predicate IsPage(page: Page, all: seq<FeedEvent>, limit: nat, offset: nat) {
    && |page.items| == (if |all| <= offset then 0 else if |all| <= offset + limit then |all| - offset else limit)
    && (forall k | 0 <= k < |page.items| :: page.items[k] == all[offset + k])
    && (page.hasMore <==> offset + limit < |all|)
  }

  lemma PageOfIsPage(events: seq<FeedEvent>, limit: nat, offset: nat)
    ensures IsPage(PageOf(events, limit, offset), StableSort(events, NotOlder), limit, offset)
  {
    NotOlderIsTotal();
    SortIsSortedPermutation(events, NotOlder);
    var all := StableSort(events, NotOlder);
    assert |all| == |events| by {
      assert |multiset(all)| == |multiset(events)|;
    }
  }

  /**
   * The page is the one at this offset of a timeline of everything, for streams in the order of the
   * final sort or closed topics within the cap.
   */
  lemma PageOfTimeline(streams: Streams, limit: nat, offset: nat)
    requires QueriesSorted(streams)
    requires SortedBy(ClosedEvents(streams.closed), NotOlder) || |streams.closed| <= limit + offset + 20
    ensures exists all, told ::
              IsTimeline(all, streams, told) && IsPage(Feed(streams, limit, offset), all, limit, offset)
  {
    PageIsExact(streams, limit, offset);
    GatheredIsTimeline(streams);
    PageOfIsPage(Gather(streams), limit, offset);
    assert IsPage(Feed(streams, limit, offset), StableSort(Gather(streams), NotOlder), limit, offset);
  }

  lemma SliceOfTop(s: seq<FeedEvent>, t: seq<FeedEvent>, from: nat, to: nat)
    requires from <= to && Take(to, s) == Take(to, t)
    ensures Slice(s, from, to) == Slice(t, from, to)
  {
    assert |s| <= from ==> |Take(to, t)| <= from;
  }

  // ----- Closed topics: capped by updated_at, sorted by closed_at -----

  /** What the query of closed topics delivers: newest update first, closed no later than updated. */
  ghost predicate ClosedInOrder(closed: seq<ClosedTopic>) {
    && (forall i, j | 0 <= i < j < |closed| :: closed[i].updatedAt >= closed[j].updatedAt)
    && (forall i | 0 <= i < |closed| && closed[i].closedAt.Some? :: closed[i].closedAt.value <= closed[i].updatedAt)
  }

  /** n topics, all closed at time 0 except the one updated longest ago. */
  function LateClosing(n: nat): seq<ClosedTopic> {
    seq(n, i requires 0 <= i < n => ClosedTopic(i, "completed", n - i, if i == n - 1 then None else Some(0)))
  }

  function OnlyClosed(closed: seq<ClosedTopic>): Streams {
    Streams([], [], [], closed)
  }

  /** Sorting moves the last topic of LateClosing to the front and leaves the others. */
  lemma SortOfLateClosing(n: nat)
    requires n > 0
    ensures var events := ClosedEvents(LateClosing(n));
            StableSort(events, NotOlder) == [events[n - 1]] + events[..n - 1]
  {
    var events := ClosedEvents(LateClosing(n));
    var last := [events[n - 1]];
    assert events == events[..n - 1] + last;
    NotOlderIsTotal();
    SortOfSorted(events[..n - 1], NotOlder);
    SortOfSorted(last, NotOlder);
    SortOfConcat(events[..n - 1], last, NotOlder);
    assert last[1..] == [];
  }

  /** All but the last are sorted as they are. */
  lemma SortOfFirst(n: nat, m: nat)
    requires m < n
    ensures StableSort(ClosedEvents(LateClosing(n))[..m], NotOlder) == ClosedEvents(LateClosing(n))[..m]
  {
    var kept := ClosedEvents(LateClosing(n))[..m];
    assert forall i | 0 <= i < m :: SortKey(kept[i]) == 0;
    SortOfSorted(kept, NotOlder);
  }

  lemma PagesOfLateClosing(n: nat, limit: nat, offset: nat)
    requires n > Cap(limit, offset)
    ensures var events := ClosedEvents(LateClosing(n));
            && Feed(OnlyClosed(LateClosing(n)), limit, offset).items
               == Slice(events[..Cap(limit, offset)], offset, offset + limit)
            && FullFeed(OnlyClosed(LateClosing(n)), limit, offset).items
               == Slice([events[n - 1]] + events[..n - 1], offset, offset + limit)
  {
    GatheredLateClosing(n, Cap(limit, offset));
    SortOfFirst(n, Cap(limit, offset));
    SortOfLateClosing(n);
  }

  /** More closed topics than the cap can put a wrong page in front of the reader. */
  lemma TruncatedTopicIsMissed(n: nat, limit: nat, offset: nat)
    requires limit > 0 && n > Cap(limit, offset)
    ensures ClosedInOrder(LateClosing(n))
    ensures Feed(OnlyClosed(LateClosing(n)), limit, offset) != FullFeed(OnlyClosed(LateClosing(n)), limit, offset)
  {
    PagesOfLateClosing(n, limit, offset);
    var events := ClosedEvents(LateClosing(n));
    SliceHead(events[..Cap(limit, offset)], offset, offset + limit);
    SliceHead([events[n - 1]] + events[..n - 1], offset, offset + limit);
    ShiftedByOne(n, offset);
  }

  lemma SliceHead<T>(s: seq<T>, from: nat, to: nat)
    requires from < to && from < |s|
    ensures Slice(s, from, to) != [] && Slice(s, from, to)[0] == s[from]
  {
  }

  lemma ShiftedByOne(n: nat, at: nat)
    requires at < n - 1
    ensures var events := ClosedEvents(LateClosing(n)); ([events[n - 1]] + events[..n - 1])[at] != events[at]
  {
    var events := ClosedEvents(LateClosing(n));
    assert events[n - 1].subject != events[at].subject && (at > 0 ==> events[at - 1].subject != events[at].subject);
  }

  lemma GatheredLateClosing(n: nat, cap: nat)
    requires cap < n
    ensures Gather(OnlyClosed(LateClosing(n))) == ClosedEvents(LateClosing(n))
    ensures Gather(Capped(OnlyClosed(LateClosing(n)), cap)) == ClosedEvents(LateClosing(n))[..cap]
  {
    assert ClosedEvents(Take(cap, LateClosing(n))) == ClosedEvents(LateClosing(n))[..cap];
  }

  /** For a given number of closed topics, every feed is exact if and only if they fit under the cap. */
  lemma ExactIffClosedFitUnderCap(n: nat, limit: nat, offset: nat)
    requires limit > 0
    ensures (forall streams: Streams | QueriesSorted(streams) && ClosedInOrder(streams.closed)
                && |streams.closed| == n ::
               Feed(streams, limit, offset) == FullFeed(streams, limit, offset))
            <==> n <= Cap(limit, offset)
  {
    if n <= Cap(limit, offset) {
      forall streams: Streams | QueriesSorted(streams) && ClosedInOrder(streams.closed) && |streams.closed| == n
        ensures Feed(streams, limit, offset) == FullFeed(streams, limit, offset)
      {
        PageIsExact(streams, limit, offset);
      }
    } else {
      TruncatedTopicIsMissed(n, limit, offset);
      assert QueriesSorted(OnlyClosed(LateClosing(n)));
    }
  }
}
