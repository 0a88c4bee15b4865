/** The insights worker's aggregation of analytics events: how many events
    of each type, and how many distinct users produced them. Fetching the
    events and storing the insights are database calls outside the model. */
module InsightsWorker {
  import opened Wrappers
  import opened JsValue
  import opened JsSet

  datatype AnalyticsEvent = AnalyticsEvent(
    id: string, eventType: string, userId: Option<string>, metadata: Json, createdAt: string)

  /** The two kinds of insight data: counts per event type, and `{ count }` of users. */
  datatype InsightData = EventCounts(counts: map<string, nat>) | UniqueUsers(count: nat)

  datatype Insight = Insight(insightType: string, data: InsightData)

  // ---------------------------------------------------------------------------
  // Counting by type
  // ---------------------------------------------------------------------------

  /** The number of events of type t: the reference the counts are checked against. */
  function CountOf(events: seq<AnalyticsEvent>, t: string): (r: nat)
    ensures r <= |events|
  {
    if events == [] then 0
    else (if events[0].eventType == t then 1 else 0) + CountOf(events[1..], t)
  }

  /** `eventCounts` after the `forEach` has seen the given events: each event
      adds one to its type's entry, `(eventCounts[type] || 0) + 1`. */
  function Counts(events: seq<AnalyticsEvent>): map<string, nat>
  {
    if events == [] then map[]
    else
      var c := Counts(events[..|events| - 1]);
      var t := events[|events| - 1].eventType;
      c[t := (if t in c then c[t] else 0) + 1]
  }

  lemma {:induction false} CountOfAppend(events: seq<AnalyticsEvent>, e: AnalyticsEvent, t: string)
    ensures CountOf(events + [e], t) == CountOf(events, t) + (if e.eventType == t then 1 else 0)
  {
    if events != [] {
      assert (events + [e])[1..] == events[1..] + [e];
      CountOfAppend(events[1..], e, t);
    } else {
      assert (events + [e])[1..] == [];
    }
  }

  /** A type has an entry exactly when some event has it, and the entry is
      the number of events of that type. */
  lemma {:induction false} CountsMeaning(events: seq<AnalyticsEvent>, t: string)
    ensures t in Counts(events) <==> CountOf(events, t) > 0
    ensures t in Counts(events) ==> Counts(events)[t] == CountOf(events, t)
  {
    if events != [] {
      var n := |events| - 1;
      CountsMeaning(events[..n], t);
      assert events[..n] + [events[n]] == events;
      CountOfAppend(events[..n], events[n], t);
    }
  }

  /** A type some event has is counted. */
  lemma {:induction false} CountOfPositive(events: seq<AnalyticsEvent>, i: nat)
    requires i < |events|
    ensures CountOf(events, events[i].eventType) > 0
  {
    if i > 0 {
      CountOfPositive(events[1..], i - 1);
    }
  }

  /** The sequence of event types, in event order. */
  function EventTypes(events: seq<AnalyticsEvent>): (r: seq<string>)
    ensures |r| == |events|
    ensures forall i :: 0 <= i < |r| ==> r[i] == events[i].eventType
  {
    if events == [] then [] else [events[0].eventType] + EventTypes(events[1..])
  }

  /** The total of the counts of the given types. */
  function SumCounts(events: seq<AnalyticsEvent>, types: seq<string>): nat
  {
    if types == [] then 0 else CountOf(events, types[0]) + SumCounts(events, types[1..])
  }

  /** Over distinct types, an event's own type is counted once. */
  lemma {:induction false} SumCountsSingle(e: AnalyticsEvent, types: seq<string>)
    requires Distinct(types)
    ensures SumCounts([e], types) == if e.eventType in types then 1 else 0
  {
    if types != [] {
      assert [e][1..] == [];
      SumCountsSingle(e, types[1..]);
      assert types[0] !in types[1..];
    }
  }

  /** Counting one event and then the rest. */
  lemma {:induction false} SumCountsCons(events: seq<AnalyticsEvent>, types: seq<string>)
    requires events != []
    ensures SumCounts(events, types) == SumCounts([events[0]], types) + SumCounts(events[1..], types)
  {
    if types != [] {
      SumCountsCons(events, types[1..]);
      assert [events[0]][1..] == [];
    }
  }

  /** The counts of distinct types that cover every event add up to the
      number of events. */
  lemma {:induction false} SumCountsTotal(events: seq<AnalyticsEvent>, types: seq<string>)
    requires Distinct(types)
    requires forall i :: 0 <= i < |events| ==> events[i].eventType in types
    ensures SumCounts(events, types) == |events|
  {
    if events == [] {
      SumCountsEmpty(types);
    } else {
      SumCountsCons(events, types);
      SumCountsSingle(events[0], types);
      SumCountsTotal(events[1..], types);
    }
  }

  lemma {:induction false} SumCountsEmpty(types: seq<string>)
    ensures SumCounts([], types) == 0
  {
    if types != [] {
      SumCountsEmpty(types[1..]);
    }
  }

  /** Summed over the types in order of first appearance, the counts total
      the number of events. */
  lemma CountsSumToTotal(events: seq<AnalyticsEvent>)
    ensures SumCounts(events, Dedup(EventTypes(events))) == |events|
  {
    var types := Dedup(EventTypes(events));
    forall i | 0 <= i < |events| ensures events[i].eventType in types {
      assert EventTypes(events)[i] in types;
    }
    SumCountsTotal(events, types);
  }

  // ---------------------------------------------------------------------------
  // Unique users
  // ---------------------------------------------------------------------------

  /** `events.filter(e => e.user_id).map(e => e.user_id)`: the truthy user ids, in order. */
  function UserIds(events: seq<AnalyticsEvent>): (r: seq<string>)
    ensures |r| <= |events|
    ensures forall u :: u in r <==> exists i :: 0 <= i < |events| && events[i].userId == Some(u) && u != ""
  {
    if events == [] then []
    else
      var rest := UserIds(events[1..]);
      assert forall i :: 1 <= i < |events| ==> events[i] == events[1..][i - 1];
      match events[0].userId
      case Some(u) => if u != "" then [u] + rest else rest
      case None => rest
  }

  /** `new Set(ids).size`. */
  function UniqueCount(events: seq<AnalyticsEvent>): nat
  {
    |Dedup(UserIds(events))|
  }

  /** A sequence without repeats has as many elements as its set. */
  lemma {:induction false} DistinctCardinality(xs: seq<string>)
    requires Distinct(xs)
    ensures |set x | x in xs| == |xs|
  {
    if xs != [] {
      var n := |xs| - 1;
      DistinctCardinality(xs[..n]);
      assert xs[n] !in xs[..n];
      assert (set x | x in xs) == (set x | x in xs[..n]) + {xs[n]};
    }
  }

  /** The unique-user count is the number of distinct non-empty user ids, and
      at most the number of events. */
  lemma UniqueCountMeaning(events: seq<AnalyticsEvent>)
    ensures UniqueCount(events) == |set u | u in UserIds(events)|
    ensures UniqueCount(events) <= |events|
  {
    var ids := UserIds(events);
    var r := Dedup(ids);
    DistinctCardinality(r);
    assert (set x | x in r) == (set u | u in ids);
  }

  /** Events without a user id, or with an empty one, do not change the
      unique-user count but still count towards their type. */
  lemma {:induction false} AnonymousEventIgnored(events: seq<AnalyticsEvent>, e: AnalyticsEvent)
    requires e.userId.None? || e.userId == Some("")
    ensures UserIds([e] + events) == UserIds(events)
    ensures CountOf([e] + events, e.eventType) == CountOf(events, e.eventType) + 1
  {
    assert ([e] + events)[1..] == events;
  }

  // ---------------------------------------------------------------------------
  // processEvents
  // ---------------------------------------------------------------------------

  /** The two insights `processEvents` returns, in order. */
  function Insights(events: seq<AnalyticsEvent>): seq<Insight>
  {
    [Insight("event_counts", EventCounts(Counts(events))), Insight("unique_users", UniqueUsers(UniqueCount(events)))]
  }

  method ProcessEvents(events: seq<AnalyticsEvent>) returns (insights: seq<Insight>)
    ensures insights == Insights(events)
  {
    insights := [];
    var eventCounts: map<string, nat> := map[];
    for i := 0 to |events|
      invariant eventCounts == Counts(events[..i])
    {
      var t := events[i].eventType;
      assert events[..i + 1][..i] == events[..i];
      eventCounts := eventCounts[t := (if t in eventCounts then eventCounts[t] else 0) + 1];
    }
    assert events[..|events|] == events;
    insights := insights + [Insight("event_counts", EventCounts(eventCounts))];
    var uniqueUsers := |Dedup(UserIds(events))|;
    insights := insights + [Insight("unique_users", UniqueUsers(uniqueUsers))];
  }

  /** No events: no counts and no users. */
  lemma EmptyInsights()
    ensures Insights([]) == [Insight("event_counts", EventCounts(map[])), Insight("unique_users", UniqueUsers(0))]
  {
    assert UserIds([]) == [];
  }

  /** Every type that occurs has an entry holding its number of events, no
      other type has one, and the unique-user count is bounded by the events. */
  lemma InsightsMeaning(events: seq<AnalyticsEvent>)
    ensures |Insights(events)| == 2
    ensures Insights(events)[0].insightType == "event_counts" && Insights(events)[1].insightType == "unique_users"
    ensures forall i :: 0 <= i < |events| ==>
      events[i].eventType in Counts(events) && Counts(events)[events[i].eventType] == CountOf(events, events[i].eventType)
    ensures forall t :: t in Counts(events) ==> exists i :: 0 <= i < |events| && events[i].eventType == t
    ensures UniqueCount(events) <= |events|
  {
    forall i | 0 <= i < |events|
      ensures events[i].eventType in Counts(events) && Counts(events)[events[i].eventType] == CountOf(events, events[i].eventType)
    {
      CountOfPositive(events, i);
      CountsMeaning(events, events[i].eventType);
    }
    forall t | t in Counts(events) ensures exists i :: 0 <= i < |events| && events[i].eventType == t {
      CountsMeaning(events, t);
      CountOfWitness(events, t);
    }
    UniqueCountMeaning(events);
  }

  /** A positive count has an event of that type behind it. */
  lemma {:induction false} CountOfWitness(events: seq<AnalyticsEvent>, t: string)
    requires CountOf(events, t) > 0
    ensures exists i :: 0 <= i < |events| && events[i].eventType == t
  {
    if events[0].eventType != t {
      CountOfWitness(events[1..], t);
      var i :| 0 <= i < |events[1..]| && events[1..][i].eventType == t;
      assert events[i + 1].eventType == t;
    }
  }
}
