/** The monitoring metrics store of the FlashFusion protocol service: the
    lists of `MonitoringMetrics`, updated in place by find-or-create,
    upsert-by-key, merge-by-id, retention filtering and the peak-hour ranking.

    The clock, the local hour and the time zone are parameters; dates are
    milliseconds since the epoch. The numeric payload of the records (rates,
    percentages, efforts) is carried as `real` and never computed on. */
module FlashFusionProtocol {
  import opened Wrappers

  // ---------------------------------------------------------------------------
  // Records
  // ---------------------------------------------------------------------------

  datatype Frequency = Daily | Weekly | Monthly

  datatype BatchPatterns = BatchPatterns(batchSize: int, frequency: Frequency, averageInterval: real, lastBatchTime: int)

  datatype DailyPatterns = DailyPatterns(activeHours: seq<nat>, peakHour: nat, activityCount: nat, timestamp: int)

  datatype CreatorBehavior = CreatorBehavior(userId: string, batchPatterns: BatchPatterns, dailyPatterns: DailyPatterns)

  /** `loadDistribution` maps an hour of the day to the number of collections in it. */
  datatype PeakPattern = PeakPattern(
    timezone: string, peakHours: seq<nat>, loadDistribution: map<nat, nat>, concurrentUsers: int, timestamp: int)

  datatype PODSuccessRate = PODSuccessRate(
    channel: string, totalOrders: int, successfulOrders: int, failedOrders: int,
    successRate: real, averageProcessingTime: real, lastUpdated: int)

  datatype HealthStatus = Healthy | Degraded | Failed

  datatype IntegrationHealth = IntegrationHealth(
    channelName: string, status: HealthStatus, uptime: real, lastFailure: Option<int>,
    failureCount: int, responseTime: real, errorRate: real)

  datatype Severity = Low | Medium | High | Critical

  datatype DebtCategory = Security | Performance | Maintainability | Scalability

  datatype DebtStatus = DebtIdentified | DebtPlanned | DebtInProgress | DebtResolved

  datatype TechDebt = TechDebt(
    id: string, title: string, description: string, severity: Severity, category: DebtCategory,
    dateIdentified: int, estimatedEffort: real, status: DebtStatus)

  datatype IncidentStatus = Open | Investigating | IncidentResolved | Closed

  datatype Incident = Incident(
    id: string, title: string, description: string, severity: Severity, status: IncidentStatus,
    startTime: int, resolvedTime: Option<int>, affectedSystems: seq<string>,
    rootCause: Option<string>, resolution: Option<string>)

  datatype DocArea = DbAccess | RealTimeMetrics | LiveSystemState | Api | Mcp | OtherArea

  datatype Priority = PriorityLow | PriorityMedium | PriorityHigh

  datatype DocStatus = DocIdentified | DocInProgress | DocCompleted

  datatype DocumentationGap = DocumentationGap(
    id: string, area: DocArea, title: string, description: string, priority: Priority,
    assignee: Option<string>, status: DocStatus, dateIdentified: int)

  /** `MonitoringMetrics` without the scalability thresholds and the
      `lastUpdated` stamp, which only the timer-driven collection writes. */
  datatype MonitoringMetrics = MonitoringMetrics(
    creatorBehaviors: seq<CreatorBehavior>,
    peakPatterns: seq<PeakPattern>,
    podSuccessRates: seq<PODSuccessRate>,
    integrationHealth: seq<IntegrationHealth>,
    techDebt: seq<TechDebt>,
    incidents: seq<Incident>,
    documentationGaps: seq<DocumentationGap>)

  // ---------------------------------------------------------------------------
  // `findIndex` and keys
  // ---------------------------------------------------------------------------

  /** `xs.findIndex(x => key(x) === k)`, with None for -1. */
  function FindIndex<T>(xs: seq<T>, key: T -> string, k: string): (r: Option<nat>)
    ensures r.Some? ==> r.value < |xs| && key(xs[r.value]) == k
    ensures r.Some? ==> forall j :: 0 <= j < r.value ==> key(xs[j]) != k
    ensures r.None? ==> forall j :: 0 <= j < |xs| ==> key(xs[j]) != k
  {
    if xs == [] then None
    else if key(xs[0]) == k then Some(0)
    else match FindIndex(xs[1..], key, k)
      case None => None
      case Some(i) => Some(i + 1)
  }

  /** No two items share a key. */
  ghost predicate UniqueKeys<T>(xs: seq<T>, key: T -> string)
  {
    forall i, j :: 0 <= i < j < |xs| ==> key(xs[i]) != key(xs[j])
  }

  function UserIdOf(b: CreatorBehavior): string { b.userId }

  function TimezoneOf(p: PeakPattern): string { p.timezone }

  function ChannelOf(p: PODSuccessRate): string { p.channel }

  function ChannelNameOf(h: IntegrationHealth): string { h.channelName }

  function DebtIdOf(t: TechDebt): string { t.id }

  function IncidentIdOf(i: Incident): string { i.id }

  function GapIdOf(g: DocumentationGap): string { g.id }

  ghost predicate Distinct<T>(xs: seq<T>)
  {
    forall i, j :: 0 <= i < j < |xs| ==> xs[i] != xs[j]
  }

  // ---------------------------------------------------------------------------
  // trackCreatorBehavior
  // ---------------------------------------------------------------------------

  /** The entry `trackCreatorBehavior` creates for an unknown user, before it counts the activity. */
  function NewBehavior(userId: string, now: int, hour: nat): CreatorBehavior
  {
    CreatorBehavior(userId, BatchPatterns(0, Daily, 0.0, now), DailyPatterns([], hour, 0, now))
  }

  /** One more activity at `now`, in the given hour. */
  function Touched(b: CreatorBehavior, now: int, hour: nat): (r: CreatorBehavior)
  {
    var d := b.dailyPatterns;
    b.(dailyPatterns := d.(
      activityCount := d.activityCount + 1,
      timestamp := now,
      activeHours := if hour in d.activeHours then d.activeHours else d.activeHours + [hour]))
  }

  /** The behaviour list after `trackCreatorBehavior(userId)` at `now`, in local hour `hour`. */
  function Tracked(bs: seq<CreatorBehavior>, userId: string, now: int, hour: nat): seq<CreatorBehavior>
  {
    match FindIndex(bs, UserIdOf, userId)
    case Some(i) => bs[i := Touched(bs[i], now, hour)]
    case None => bs + [Touched(NewBehavior(userId, now, hour), now, hour)]
  }

  /** A user's first activity appends one entry, counted once, active in the
      current hour, with that hour as its peak hour; a known user's first
      entry counts one more activity and keeps its other fields; nobody else's
      entry changes. */
  lemma TrackedEntries(bs: seq<CreatorBehavior>, userId: string, now: int, hour: nat)
    ensures var r := Tracked(bs, userId, now, hour);
      && (FindIndex(bs, UserIdOf, userId).None? ==>
        && |r| == |bs| + 1 && r[..|bs|] == bs
        && r[|bs|].userId == userId && r[|bs|].dailyPatterns.activityCount == 1
        && r[|bs|].dailyPatterns.peakHour == hour && r[|bs|].dailyPatterns.activeHours == [hour]
        && r[|bs|].dailyPatterns.timestamp == now)
      && (FindIndex(bs, UserIdOf, userId).Some? ==>
        var i := FindIndex(bs, UserIdOf, userId).value;
        && |r| == |bs| && r[i].userId == userId && r[i].batchPatterns == bs[i].batchPatterns
        && r[i].dailyPatterns.activityCount == bs[i].dailyPatterns.activityCount + 1
        && r[i].dailyPatterns.peakHour == bs[i].dailyPatterns.peakHour
        && r[i].dailyPatterns.timestamp == now
        && hour in r[i].dailyPatterns.activeHours)
      && (forall j :: 0 <= j < |bs| && bs[j].userId != userId ==> r[j] == bs[j])
  {
    var r := Tracked(bs, userId, now, hour);
    if FindIndex(bs, UserIdOf, userId).None? {
      assert r[..|bs|] == bs;
    }
  }

  /** At most one entry per user stays so, and every entry's active hours stay free of repeats. */
  lemma TrackedKeepsUnique(bs: seq<CreatorBehavior>, userId: string, now: int, hour: nat)
    requires UniqueKeys(bs, UserIdOf)
    requires forall i :: 0 <= i < |bs| ==> Distinct(bs[i].dailyPatterns.activeHours)
    ensures UniqueKeys(Tracked(bs, userId, now, hour), UserIdOf)
    ensures var r := Tracked(bs, userId, now, hour);
      forall i :: 0 <= i < |r| ==> Distinct(r[i].dailyPatterns.activeHours)
  {
    var r := Tracked(bs, userId, now, hour);
    var f := FindIndex(bs, UserIdOf, userId);
    if f.Some? {
      forall i, j | 0 <= i < j < |r| ensures UserIdOf(r[i]) != UserIdOf(r[j]) {
        assert UserIdOf(r[i]) == UserIdOf(bs[i]) && UserIdOf(r[j]) == UserIdOf(bs[j]);
      }
      TouchedDistinct(bs[f.value], now, hour);
    } else {
      forall i, j | 0 <= i < j < |r| ensures UserIdOf(r[i]) != UserIdOf(r[j]) {
        if j < |bs| {
          assert r[i] == bs[i] && r[j] == bs[j];
        } else {
          assert r[i] == bs[i] && UserIdOf(r[j]) == userId;
        }
      }
      TouchedDistinct(NewBehavior(userId, now, hour), now, hour);
    }
  }

  /** The current hour is added to the active hours only when it is absent. */
  lemma TouchedDistinct(b: CreatorBehavior, now: int, hour: nat)
    requires Distinct(b.dailyPatterns.activeHours)
    ensures Distinct(Touched(b, now, hour).dailyPatterns.activeHours)
    ensures hour in Touched(b, now, hour).dailyPatterns.activeHours
  {
    var hs := b.dailyPatterns.activeHours;
    if hour !in hs {
      var hs' := hs + [hour];
      forall i, j | 0 <= i < j < |hs'| ensures hs'[i] != hs'[j] {
        if j == |hs| {
          assert hs'[i] == hs[i];
        }
      }
    }
  }

  // ---------------------------------------------------------------------------
  // addPODSuccessRate / updateIntegrationHealth
  // ---------------------------------------------------------------------------

  /** Replace the first item with x's key by x, or append x. */
  function Upsert<T>(xs: seq<T>, key: T -> string, x: T): seq<T>
  {
    match FindIndex(xs, key, key(x))
    case Some(i) => xs[i := x]
    case None => xs + [x]
  }

  /** The upsert grows the list exactly when no item had the key, and then by
      one; afterwards x is in the list; items with other keys stay where they
      were; and keys that were unique stay unique, with x the only item with
      its key. */
  lemma UpsertProperties<T>(xs: seq<T>, key: T -> string, x: T)
    ensures var r := Upsert(xs, key, x);
      && (|r| == |xs| + 1 <==> forall j :: 0 <= j < |xs| ==> key(xs[j]) != key(x))
      && (|r| == |xs| || |r| == |xs| + 1)
      && x in r
      && (forall j :: 0 <= j < |xs| && key(xs[j]) != key(x) ==> r[j] == xs[j])
      && (UniqueKeys(xs, key) ==> UniqueKeys(r, key))
      && (UniqueKeys(xs, key) ==> forall j :: 0 <= j < |r| && key(r[j]) == key(x) ==> r[j] == x)
  {
    var r := Upsert(xs, key, x);
    var f := FindIndex(xs, key, key(x));
    if f.Some? {
      assert r[f.value] == x;
    } else {
      assert r[|xs|] == x;
    }
    if UniqueKeys(xs, key) {
      forall i, j | 0 <= i < j < |r| ensures key(r[i]) != key(r[j]) {
        if f.Some? {
          if i == f.value {
            assert key(r[i]) == key(xs[i]) && key(r[j]) == key(xs[j]);
          } else if j == f.value {
            assert key(r[i]) == key(xs[i]) && key(r[j]) == key(xs[j]);
          } else {
            assert r[i] == xs[i] && r[j] == xs[j];
          }
        } else if j < |xs| {
          assert r[i] == xs[i] && r[j] == xs[j];
        } else {
          assert r[i] == xs[i] && r[j] == x;
        }
      }
    }
  }

  // ---------------------------------------------------------------------------
  // The merge of `{ ...item, ...updates }`
  // ---------------------------------------------------------------------------

  /** A field given in the updates wins over the item's own. */
  function Override<T>(u: Option<T>, v: T): T
  {
    if u.Some? then u.value else v
  }

  /** `Partial<TechDebt>`: None for a key absent from the updates object. */
  datatype TechDebtUpdate = TechDebtUpdate(
    id: Option<string>, title: Option<string>, description: Option<string>, severity: Option<Severity>,
    category: Option<DebtCategory>, dateIdentified: Option<int>, estimatedEffort: Option<real>,
    status: Option<DebtStatus>)

  function MergeTechDebt(t: TechDebt, u: TechDebtUpdate): TechDebt
  {
    TechDebt(Override(u.id, t.id), Override(u.title, t.title), Override(u.description, t.description),
      Override(u.severity, t.severity), Override(u.category, t.category),
      Override(u.dateIdentified, t.dateIdentified), Override(u.estimatedEffort, t.estimatedEffort),
      Override(u.status, t.status))
  }

  /** `Partial<Incident>`; for an optional field, Some(None) sets it to `undefined`. */
  datatype IncidentUpdate = IncidentUpdate(
    id: Option<string>, title: Option<string>, description: Option<string>, severity: Option<Severity>,
    status: Option<IncidentStatus>, startTime: Option<int>, resolvedTime: Option<Option<int>>,
    affectedSystems: Option<seq<string>>, rootCause: Option<Option<string>>, resolution: Option<Option<string>>)

  function MergeIncident(i: Incident, u: IncidentUpdate): Incident
  {
    Incident(Override(u.id, i.id), Override(u.title, i.title), Override(u.description, i.description),
      Override(u.severity, i.severity), Override(u.status, i.status), Override(u.startTime, i.startTime),
      Override(u.resolvedTime, i.resolvedTime), Override(u.affectedSystems, i.affectedSystems),
      Override(u.rootCause, i.rootCause), Override(u.resolution, i.resolution))
  }

  /** `Partial<DocumentationGap>`. */
  datatype GapUpdate = GapUpdate(
    id: Option<string>, area: Option<DocArea>, title: Option<string>, description: Option<string>,
    priority: Option<Priority>, assignee: Option<Option<string>>, status: Option<DocStatus>,
    dateIdentified: Option<int>)

  function MergeGap(g: DocumentationGap, u: GapUpdate): DocumentationGap
  {
    DocumentationGap(Override(u.id, g.id), Override(u.area, g.area), Override(u.title, g.title),
      Override(u.description, g.description), Override(u.priority, g.priority),
      Override(u.assignee, g.assignee), Override(u.status, g.status),
      Override(u.dateIdentified, g.dateIdentified))
  }

  const NoDebtUpdate := TechDebtUpdate(None, None, None, None, None, None, None, None)

  /** Merging an empty update changes nothing; merging the same update twice
      is merging it once; a field the update gives wins and a field it leaves
      out keeps its value. */
  lemma MergeTechDebtLaws(t: TechDebt, u: TechDebtUpdate)
    ensures MergeTechDebt(t, NoDebtUpdate) == t
    ensures MergeTechDebt(MergeTechDebt(t, u), u) == MergeTechDebt(t, u)
    ensures u.id.Some? ==> MergeTechDebt(t, u).id == u.id.value
    ensures u.id.None? ==> MergeTechDebt(t, u).id == t.id
    ensures u.title.Some? ==> MergeTechDebt(t, u).title == u.title.value
    ensures u.title.None? ==> MergeTechDebt(t, u).title == t.title
    ensures u.description.Some? ==> MergeTechDebt(t, u).description == u.description.value
    ensures u.description.None? ==> MergeTechDebt(t, u).description == t.description
    ensures u.severity.Some? ==> MergeTechDebt(t, u).severity == u.severity.value
    ensures u.severity.None? ==> MergeTechDebt(t, u).severity == t.severity
    ensures u.category.Some? ==> MergeTechDebt(t, u).category == u.category.value
    ensures u.category.None? ==> MergeTechDebt(t, u).category == t.category
    ensures u.dateIdentified.Some? ==> MergeTechDebt(t, u).dateIdentified == u.dateIdentified.value
    ensures u.dateIdentified.None? ==> MergeTechDebt(t, u).dateIdentified == t.dateIdentified
    ensures u.estimatedEffort.Some? ==> MergeTechDebt(t, u).estimatedEffort == u.estimatedEffort.value
    ensures u.estimatedEffort.None? ==> MergeTechDebt(t, u).estimatedEffort == t.estimatedEffort
    ensures u.status.Some? ==> MergeTechDebt(t, u).status == u.status.value
    ensures u.status.None? ==> MergeTechDebt(t, u).status == t.status
  {
  }

  /** As for tech debt; for an optional field, an update of `Some(None)`
      clears it. */
  lemma MergeIncidentLaws(i: Incident, u: IncidentUpdate)
    ensures MergeIncident(i, IncidentUpdate(None, None, None, None, None, None, None, None, None, None)) == i
    ensures MergeIncident(MergeIncident(i, u), u) == MergeIncident(i, u)
    ensures u.id.Some? ==> MergeIncident(i, u).id == u.id.value
    ensures u.id.None? ==> MergeIncident(i, u).id == i.id
    ensures u.title.Some? ==> MergeIncident(i, u).title == u.title.value
    ensures u.title.None? ==> MergeIncident(i, u).title == i.title
    ensures u.description.Some? ==> MergeIncident(i, u).description == u.description.value
    ensures u.description.None? ==> MergeIncident(i, u).description == i.description
    ensures u.severity.Some? ==> MergeIncident(i, u).severity == u.severity.value
    ensures u.severity.None? ==> MergeIncident(i, u).severity == i.severity
    ensures u.status.Some? ==> MergeIncident(i, u).status == u.status.value
    ensures u.status.None? ==> MergeIncident(i, u).status == i.status
    ensures u.startTime.Some? ==> MergeIncident(i, u).startTime == u.startTime.value
    ensures u.startTime.None? ==> MergeIncident(i, u).startTime == i.startTime
    ensures u.resolvedTime.Some? ==> MergeIncident(i, u).resolvedTime == u.resolvedTime.value
    ensures u.resolvedTime.None? ==> MergeIncident(i, u).resolvedTime == i.resolvedTime
    ensures u.affectedSystems.Some? ==> MergeIncident(i, u).affectedSystems == u.affectedSystems.value
    ensures u.affectedSystems.None? ==> MergeIncident(i, u).affectedSystems == i.affectedSystems
    ensures u.rootCause.Some? ==> MergeIncident(i, u).rootCause == u.rootCause.value
    ensures u.rootCause.None? ==> MergeIncident(i, u).rootCause == i.rootCause
    ensures u.resolution.Some? ==> MergeIncident(i, u).resolution == u.resolution.value
    ensures u.resolution.None? ==> MergeIncident(i, u).resolution == i.resolution
    ensures u.resolvedTime == Some(None) ==> MergeIncident(i, u).resolvedTime.None?
  {
  }

  lemma MergeGapLaws(g: DocumentationGap, u: GapUpdate)
    ensures MergeGap(g, GapUpdate(None, None, None, None, None, None, None, None)) == g
    ensures MergeGap(MergeGap(g, u), u) == MergeGap(g, u)
    ensures u.id.Some? ==> MergeGap(g, u).id == u.id.value
    ensures u.id.None? ==> MergeGap(g, u).id == g.id
    ensures u.area.Some? ==> MergeGap(g, u).area == u.area.value
    ensures u.area.None? ==> MergeGap(g, u).area == g.area
    ensures u.title.Some? ==> MergeGap(g, u).title == u.title.value
    ensures u.title.None? ==> MergeGap(g, u).title == g.title
    ensures u.description.Some? ==> MergeGap(g, u).description == u.description.value
    ensures u.description.None? ==> MergeGap(g, u).description == g.description
    ensures u.priority.Some? ==> MergeGap(g, u).priority == u.priority.value
    ensures u.priority.None? ==> MergeGap(g, u).priority == g.priority
    ensures u.assignee.Some? ==> MergeGap(g, u).assignee == u.assignee.value
    ensures u.assignee.None? ==> MergeGap(g, u).assignee == g.assignee
    ensures u.status.Some? ==> MergeGap(g, u).status == u.status.value
    ensures u.status.None? ==> MergeGap(g, u).status == g.status
    ensures u.dateIdentified.Some? ==> MergeGap(g, u).dateIdentified == u.dateIdentified.value
    ensures u.dateIdentified.None? ==> MergeGap(g, u).dateIdentified == g.dateIdentified
  {
  }

  /** The first item with the id, merged with the updates; the list as it
      was when no item has the id. */
  function UpdatedDebt(xs: seq<TechDebt>, id: string, u: TechDebtUpdate): seq<TechDebt>
  {
    match FindIndex(xs, DebtIdOf, id)
    case Some(i) => xs[i := MergeTechDebt(xs[i], u)]
    case None => xs
  }

  function UpdatedIncidents(xs: seq<Incident>, id: string, u: IncidentUpdate): seq<Incident>
  {
    match FindIndex(xs, IncidentIdOf, id)
    case Some(i) => xs[i := MergeIncident(xs[i], u)]
    case None => xs
  }

  function UpdatedGaps(xs: seq<DocumentationGap>, id: string, u: GapUpdate): seq<DocumentationGap>
  {
    match FindIndex(xs, GapIdOf, id)
    case Some(i) => xs[i := MergeGap(xs[i], u)]
    case None => xs
  }

  /** An update by id keeps the length, merges the updates into the first item
      with that id, leaves every other item as it was (later items with the
      same id included), and changes nothing when no item has the id. */
  lemma UpdatedDebtProperties(xs: seq<TechDebt>, id: string, u: TechDebtUpdate)
    ensures |UpdatedDebt(xs, id, u)| == |xs|
    ensures (forall j :: 0 <= j < |xs| ==> xs[j].id != id) ==> UpdatedDebt(xs, id, u) == xs
    ensures forall j :: 0 <= j < |xs| && xs[j].id != id ==> UpdatedDebt(xs, id, u)[j] == xs[j]
    ensures forall i :: 0 <= i < |xs| && xs[i].id == id && (forall k :: 0 <= k < i ==> xs[k].id != id) ==>
      UpdatedDebt(xs, id, u)[i] == MergeTechDebt(xs[i], u)
      && forall j :: 0 <= j < |xs| && j != i ==> UpdatedDebt(xs, id, u)[j] == xs[j]
  {
    var f := FindIndex(xs, DebtIdOf, id);
    forall j | 0 <= j < |xs| && xs[j].id != id ensures UpdatedDebt(xs, id, u)[j] == xs[j] {
      assert DebtIdOf(xs[j]) != id;
    }
    forall i | 0 <= i < |xs| && xs[i].id == id && (forall k :: 0 <= k < i ==> xs[k].id != id)
      ensures f == Some(i)
    {
      assert DebtIdOf(xs[i]) == id;
    }
  }

  /** The same for incidents. */
  lemma UpdatedIncidentsProperties(xs: seq<Incident>, id: string, u: IncidentUpdate)
    ensures |UpdatedIncidents(xs, id, u)| == |xs|
    ensures (forall j :: 0 <= j < |xs| ==> xs[j].id != id) ==> UpdatedIncidents(xs, id, u) == xs
    ensures forall j :: 0 <= j < |xs| && xs[j].id != id ==> UpdatedIncidents(xs, id, u)[j] == xs[j]
    ensures forall i :: 0 <= i < |xs| && xs[i].id == id && (forall k :: 0 <= k < i ==> xs[k].id != id) ==>
      UpdatedIncidents(xs, id, u)[i] == MergeIncident(xs[i], u)
      && forall j :: 0 <= j < |xs| && j != i ==> UpdatedIncidents(xs, id, u)[j] == xs[j]
  {
    var f := FindIndex(xs, IncidentIdOf, id);
    forall j | 0 <= j < |xs| && xs[j].id != id ensures UpdatedIncidents(xs, id, u)[j] == xs[j] {
      assert IncidentIdOf(xs[j]) != id;
    }
    forall i | 0 <= i < |xs| && xs[i].id == id && (forall k :: 0 <= k < i ==> xs[k].id != id)
      ensures f == Some(i)
    {
      assert IncidentIdOf(xs[i]) == id;
    }
  }

  /** The same for documentation gaps. */
  lemma UpdatedGapsProperties(xs: seq<DocumentationGap>, id: string, u: GapUpdate)
    ensures |UpdatedGaps(xs, id, u)| == |xs|
    ensures (forall j :: 0 <= j < |xs| ==> xs[j].id != id) ==> UpdatedGaps(xs, id, u) == xs
    ensures forall j :: 0 <= j < |xs| && xs[j].id != id ==> UpdatedGaps(xs, id, u)[j] == xs[j]
    ensures forall i :: 0 <= i < |xs| && xs[i].id == id && (forall k :: 0 <= k < i ==> xs[k].id != id) ==>
      UpdatedGaps(xs, id, u)[i] == MergeGap(xs[i], u)
      && forall j :: 0 <= j < |xs| && j != i ==> UpdatedGaps(xs, id, u)[j] == xs[j]
  {
    var f := FindIndex(xs, GapIdOf, id);
    forall j | 0 <= j < |xs| && xs[j].id != id ensures UpdatedGaps(xs, id, u)[j] == xs[j] {
      assert GapIdOf(xs[j]) != id;
    }
    forall i | 0 <= i < |xs| && xs[i].id == id && (forall k :: 0 <= k < i ==> xs[k].id != id)
      ensures f == Some(i)
    {
      assert GapIdOf(xs[i]) == id;
    }
  }

  // ---------------------------------------------------------------------------
  // clearOldData
  // ---------------------------------------------------------------------------

  /** The incidents that started after the cutoff, in order. */
  function RecentIncidents(xs: seq<Incident>, cutoff: int): (r: seq<Incident>)
    ensures |r| <= |xs|
  {
    if xs == [] then []
    else (if xs[0].startTime > cutoff then [xs[0]] else []) + RecentIncidents(xs[1..], cutoff)
  }

  predicate DebtRetained(t: TechDebt, cutoff: int)
  {
    t.status != DebtResolved || t.dateIdentified > cutoff
  }

  /** The tech debt that is unresolved or was identified after the cutoff, in order. */
  function RetainedDebt(xs: seq<TechDebt>, cutoff: int): (r: seq<TechDebt>)
    ensures |r| <= |xs|
  {
    if xs == [] then []
    else (if DebtRetained(xs[0], cutoff) then [xs[0]] else []) + RetainedDebt(xs[1..], cutoff)
  }

  /** An incident is kept exactly when it started after the cutoff. */
  lemma {:induction false} RecentIncidentsMembers(xs: seq<Incident>, cutoff: int)
    ensures forall x :: x in RecentIncidents(xs, cutoff) <==> x in xs && x.startTime > cutoff
  {
    if xs != [] {
      RecentIncidentsMembers(xs[1..], cutoff);
      assert forall x :: x in xs <==> x == xs[0] || x in xs[1..];
    }
  }

  /** Debt is kept exactly when it is unresolved or was identified after the cutoff. */
  lemma {:induction false} RetainedDebtMembers(xs: seq<TechDebt>, cutoff: int)
    ensures forall x :: x in RetainedDebt(xs, cutoff) <==> x in xs && DebtRetained(x, cutoff)
  {
    if xs != [] {
      RetainedDebtMembers(xs[1..], cutoff);
      assert forall x :: x in xs <==> x == xs[0] || x in xs[1..];
    }
  }

  /** The filters keep the relative order: filtering a concatenation
      concatenates the filtered parts. */
  lemma {:induction false} RecentIncidentsAppend(a: seq<Incident>, b: seq<Incident>, cutoff: int)
    ensures RecentIncidents(a + b, cutoff) == RecentIncidents(a, cutoff) + RecentIncidents(b, cutoff)
  {
    if a == [] {
      assert a + b == b;
    } else {
      var h := if a[0].startTime > cutoff then [a[0]] else [];
      assert (a + b)[0] == a[0];
      assert (a + b)[1..] == a[1..] + b;
      calc {
        RecentIncidents(a + b, cutoff);
        h + RecentIncidents(a[1..] + b, cutoff);
        { RecentIncidentsAppend(a[1..], b, cutoff); }
        h + (RecentIncidents(a[1..], cutoff) + RecentIncidents(b, cutoff));
        (h + RecentIncidents(a[1..], cutoff)) + RecentIncidents(b, cutoff);
      }
    }
  }

  lemma {:induction false} RetainedDebtAppend(a: seq<TechDebt>, b: seq<TechDebt>, cutoff: int)
    ensures RetainedDebt(a + b, cutoff) == RetainedDebt(a, cutoff) + RetainedDebt(b, cutoff)
  {
    if a == [] {
      assert a + b == b;
    } else {
      var h := if DebtRetained(a[0], cutoff) then [a[0]] else [];
      assert (a + b)[0] == a[0];
      assert (a + b)[1..] == a[1..] + b;
      calc {
        RetainedDebt(a + b, cutoff);
        h + RetainedDebt(a[1..] + b, cutoff);
        { RetainedDebtAppend(a[1..], b, cutoff); }
        h + (RetainedDebt(a[1..], cutoff) + RetainedDebt(b, cutoff));
        (h + RetainedDebt(a[1..], cutoff)) + RetainedDebt(b, cutoff);
      }
    }
  }

  /** Unresolved debt is never removed: a list without resolved debt is kept whole. */
  lemma {:induction false} UnresolvedDebtKept(xs: seq<TechDebt>, cutoff: int)
    requires forall i :: 0 <= i < |xs| ==> xs[i].status != DebtResolved
    ensures RetainedDebt(xs, cutoff) == xs
  {
    if xs != [] {
      UnresolvedDebtKept(xs[1..], cutoff);
    }
  }

  // ---------------------------------------------------------------------------
  // updatePeakPatterns
  // ---------------------------------------------------------------------------

  /** The hours in [h, 24) that have an entry, ascending: the integer keys in
      the order `Object.entries` lists them. */
  function HoursFrom(d: map<nat, nat>, h: nat): (r: seq<nat>)
    ensures forall i :: 0 <= i < |r| ==> h <= r[i] < 24 && r[i] in d
    ensures forall i, j :: 0 <= i < j < |r| ==> r[i] < r[j]
    decreases 24 - h
  {
    if h >= 24 then []
    else if h in d then [h] + HoursFrom(d, h + 1)
    else HoursFrom(d, h + 1)
  }

  /** Every hour of the day from h on that has an entry is listed. */
  lemma {:induction false} HoursFromCovers(d: map<nat, nat>, h: nat, k: nat)
    requires h <= k < 24 && k in d
    ensures k in HoursFrom(d, h)
    decreases 24 - h
  {
    if h < k {
      HoursFromCovers(d, h + 1, k);
    }
  }

  /** a ranks before b: a higher count, or the same count and a smaller hour. */
  predicate Ahead(d: map<nat, nat>, a: nat, b: nat)
    requires a in d && b in d
  {
    d[a] > d[b] || (d[a] == d[b] && a < b)
  }

  predicate InDist(d: map<nat, nat>, xs: seq<nat>)
  {
    forall i :: 0 <= i < |xs| ==> xs[i] in d
  }

  /** Insert x after every element whose count is at least x's: one step of a
      stable sort by descending count. */
  function InsertByCount(d: map<nat, nat>, x: nat, s: seq<nat>): (r: seq<nat>)
    requires x in d && InDist(d, s)
    ensures multiset(r) == multiset(s) + multiset{x}
    ensures InDist(d, r)
  {
    if s == [] then [x]
    else if d[s[0]] >= d[x] then
      assert s == [s[0]] + s[1..];
      [s[0]] + InsertByCount(d, x, s[1..])
    else [x] + s
  }

  /** `sort(([, a], [, b]) => b - a)` on the entries: a stable sort by descending count. */
  function SortByCount(d: map<nat, nat>, xs: seq<nat>): (r: seq<nat>)
    requires InDist(d, xs)
    ensures multiset(r) == multiset(xs)
    ensures InDist(d, r)
  {
    if xs == [] then []
    else
      assert xs == xs[..|xs| - 1] + [xs[|xs| - 1]];
      InsertByCount(d, xs[|xs| - 1], SortByCount(d, xs[..|xs| - 1]))
  }

  /** The hours with an entry, ranked: the sorted `Object.entries`. */
  function Ranking(d: map<nat, nat>): (r: seq<nat>)
    ensures InDist(d, r)
  {
    SortByCount(d, HoursFrom(d, 0))
  }

  /** `peakHours`: the first three hours of the ranking. */
  function PeakHours(d: map<nat, nat>): seq<nat>
  {
    var ranked := Ranking(d);
    if |ranked| <= 3 then ranked else ranked[..3]
  }

  ghost predicate RankedBy(d: map<nat, nat>, s: seq<nat>)
    requires InDist(d, s)
  {
    forall i, j :: 0 <= i < j < |s| ==> Ahead(d, s[i], s[j])
  }

  lemma {:induction false} InsertRanked(d: map<nat, nat>, x: nat, s: seq<nat>)
    requires x in d && InDist(d, s) && RankedBy(d, s)
    requires forall i :: 0 <= i < |s| ==> s[i] < x
    ensures RankedBy(d, InsertByCount(d, x, s))
  {
    var r := InsertByCount(d, x, s);
    if s != [] && d[s[0]] >= d[x] {
      InsertRanked(d, x, s[1..]);
      var t := InsertByCount(d, x, s[1..]);
      assert multiset(t) == multiset(s[1..]) + multiset{x};
      forall k | 0 <= k < |t| ensures Ahead(d, s[0], t[k]) {
        assert t[k] in multiset(t);
        if t[k] != x {
          assert t[k] in multiset(s[1..]);
          var m :| 0 <= m < |s[1..]| && s[1..][m] == t[k];
          assert s[m + 1] == t[k];
        }
      }
    }
  }

  lemma {:induction false} SortRanked(d: map<nat, nat>, xs: seq<nat>)
    requires InDist(d, xs)
    requires forall i, j :: 0 <= i < j < |xs| ==> xs[i] < xs[j]
    ensures RankedBy(d, SortByCount(d, xs))
  {
    if xs != [] {
      var init := xs[..|xs| - 1];
      var last := xs[|xs| - 1];
      SortRanked(d, init);
      var s := SortByCount(d, init);
      forall i | 0 <= i < |s| ensures s[i] < last {
        assert s[i] in multiset(init);
        var m :| 0 <= m < |init| && init[m] == s[i];
      }
      InsertRanked(d, last, s);
    }
  }

  /** Every hour of the day with an entry is ranked. */
  lemma RankingCovers(d: map<nat, nat>, h: nat)
    requires h in d && h < 24
    ensures h in Ranking(d)
  {
    var hours := HoursFrom(d, 0);
    HoursFromCovers(d, 0, h);
    assert h in multiset(hours);
    assert h in multiset(Ranking(d));
  }

  /** The peak hours are at most three distinct hours with entries, ranked by
      count, ties by the smaller hour. */
  lemma PeakHoursRanked(d: map<nat, nat>)
    ensures var p := PeakHours(d);
      && |p| <= 3
      && InDist(d, p)
      && (forall i, j :: 0 <= i < j < |p| ==> Ahead(d, p[i], p[j]))
      && Distinct(p)
  {
    RankingRanked(d);
    PeakHoursPrefix(d);
    var p := PeakHours(d);
    forall i, j | 0 <= i < j < |p| ensures p[i] != p[j] {
      assert Ahead(d, p[i], p[j]);
    }
  }

  /** Fewer than three peak hours are chosen only when every hour with an
      entry is chosen. */
  lemma PeakHoursComplete(d: map<nat, nat>)
    requires forall h :: h in d ==> h < 24
    ensures |PeakHours(d)| < 3 ==> forall h :: h in d ==> h in PeakHours(d)
  {
    forall h | h in d && |PeakHours(d)| < 3 ensures h in PeakHours(d) {
      RankingCovers(d, h);
    }
  }

  /** In a ranking, each element of a prefix has a count at least that of
      every element outside the prefix. */
  lemma RankedPrefixBeatsRest(d: map<nat, nat>, ranked: seq<nat>, n: nat)
    requires InDist(d, ranked) && RankedBy(d, ranked) && n <= |ranked|
    ensures forall h, i :: h in ranked && h !in ranked[..n] && 0 <= i < n ==> d[ranked[i]] >= d[h]
  {
    forall h, i | h in ranked && h !in ranked[..n] && 0 <= i < n ensures d[ranked[i]] >= d[h] {
      var m :| 0 <= m < |ranked| && ranked[m] == h;
      assert m >= n;
      assert Ahead(d, ranked[i], ranked[m]);
    }
  }

  /** Every peak hour has a count at least that of every hour with an entry
      that was not chosen. */
  lemma PeakHoursBeatTheRest(d: map<nat, nat>)
    requires forall h :: h in d ==> h < 24
    ensures var p := PeakHours(d);
      forall h, i :: h in d && h !in p && 0 <= i < |p| ==> p[i] in d && d[p[i]] >= d[h]
  {
    var ranked := Ranking(d);
    var p := PeakHours(d);
    PeakHoursPrefix(d);
    RankingRanked(d);
    RankedPrefixBeatsRest(d, ranked, |p|);
    forall h | h in d ensures h in ranked {
      RankingCovers(d, h);
    }
  }

  lemma PeakHoursPrefix(d: map<nat, nat>)
    ensures PeakHours(d) == Ranking(d)[..|PeakHours(d)|]
  {
  }

  lemma RankingRanked(d: map<nat, nat>)
    ensures RankedBy(d, Ranking(d))
  {
    SortRanked(d, HoursFrom(d, 0));
  }

  /** The pattern after one collection in the given hour at `now`. */
  function Collected(p: PeakPattern, hour: nat, now: int): PeakPattern
  {
    var d := p.loadDistribution;
    var d' := d[hour := (if hour in d then d[hour] else 0) + 1];
    p.(loadDistribution := d', timestamp := now, peakHours := PeakHours(d'))
  }

  /** One collection raises the hour's count by one, leaves every other hour's
      count alone and ranks the peak hours afresh. */
  lemma CollectedCounts(p: PeakPattern, hour: nat, now: int)
    ensures var d := p.loadDistribution;
      var c := Collected(p, hour, now);
      && c.timezone == p.timezone
      && c.loadDistribution[hour] == (if hour in d then d[hour] else 0) + 1
      && (forall h :: h != hour ==> (h in c.loadDistribution <==> h in d))
      && (forall h :: h != hour && h in d ==> c.loadDistribution[h] == d[h])
      && c.peakHours == PeakHours(c.loadDistribution)
  {
  }

  /** `Collected`, as the method performs it: the hour's old count, or 0, plus one. */
  lemma CollectedStep(p: PeakPattern, hour: nat, now: int, count: nat)
    requires count == if hour in p.loadDistribution then p.loadDistribution[hour] else 0
    ensures var d := p.loadDistribution[hour := count + 1];
      Collected(p, hour, now) == p.(loadDistribution := d, timestamp := now, peakHours := PeakHours(d))
  {
    var d := p.loadDistribution;
    assert d[hour := count + 1] == d[hour := (if hour in d then d[hour] else 0) + 1];
  }

  function NewPattern(timezone: string, now: int): PeakPattern
  {
    PeakPattern(timezone, [], map[], 0, now)
  }

  /** The pattern list after `updatePeakPatterns` in `timezone`, local hour `hour`, at `now`. */
  function UpdatedPeaks(ps: seq<PeakPattern>, timezone: string, hour: nat, now: int): seq<PeakPattern>
  {
    match FindIndex(ps, TimezoneOf, timezone)
    case Some(i) => ps[i := Collected(ps[i], hour, now)]
    case None => ps + [Collected(NewPattern(timezone, now), hour, now)]
  }

  /** The time zone's pattern is created only when absent, so one pattern per
      zone stays so; the zone's first pattern, or the new one at the end, is
      the one that collects. */
  lemma UpdatedPeaksProperties(ps: seq<PeakPattern>, timezone: string, hour: nat, now: int)
    ensures var r := UpdatedPeaks(ps, timezone, hour, now);
      && (UniqueKeys(ps, TimezoneOf) ==> UniqueKeys(r, TimezoneOf))
      && (|r| == |ps| + 1 <==> forall j :: 0 <= j < |ps| ==> ps[j].timezone != timezone)
      && (|r| == |ps| || |r| == |ps| + 1)
      && (forall j :: 0 <= j < |ps| && ps[j].timezone != timezone ==> r[j] == ps[j])
      && (|r| == |ps| + 1 ==> r[|ps|] == Collected(NewPattern(timezone, now), hour, now))
  {
    var f := FindIndex(ps, TimezoneOf, timezone);
    var c := Collected(if f.Some? then ps[f.value] else NewPattern(timezone, now), hour, now);
    assert TimezoneOf(c) == timezone;
    UpsertProperties(ps, TimezoneOf, c);
    assert UpdatedPeaks(ps, timezone, hour, now) == Upsert(ps, TimezoneOf, c);
  }

  /** With one counted hour, `Object.entries` lists just that hour. */
  lemma {:induction false} SingleHourFrom(d: map<nat, nat>, hour: nat, h: nat)
    requires hour < 24 && h <= 24 && d.Keys == {hour}
    ensures HoursFrom(d, h) == if h <= hour then [hour] else []
    decreases 24 - h
  {
    if h < 24 {
      SingleHourFrom(d, hour, h + 1);
    }
  }

  /** The first collection of a fresh service: one pattern, for the time
      zone, with a count of 1 in the current hour, which is its only peak hour. */
  lemma FirstCollection(timezone: string, hour: nat, now: int)
    requires hour < 24
    ensures var ps := UpdatedPeaks([], timezone, hour, now);
      && |ps| == 1
      && ps[0].timezone == timezone
      && ps[0].loadDistribution == map[hour := 1]
      && ps[0].peakHours == [hour]
  {
    var d: map<nat, nat> := map[hour := 1];
    SingleHourFrom(d, hour, 0);
    assert SortByCount(d, [hour]) == [hour] by {
      assert [hour][..0] == [];
    }
    assert NewPattern(timezone, now).loadDistribution == map[];
  }

  // ---------------------------------------------------------------------------
  // The service
  // ---------------------------------------------------------------------------

  /** `initializeMetrics()` with nothing saved. */
  const NoMetrics := MonitoringMetrics([], [], [], [], [], [], [])

  /** `FlashFusionProtocolService` with its metrics: the operations update
      the lists of `metrics` in place. */
  class ProtocolService {
    var metrics: MonitoringMetrics

    /** The start with no saved metrics: every list empty. When the loaded
        configuration enables monitoring (the default does), `startMonitoring`
        runs its initial collection at once, which records the current local
        hour in the time zone's new peak pattern. */
    constructor (monitoringEnabled: bool, timezone: string, hour: nat, now: int)
      requires hour < 24
      ensures Valid()
      ensures monitoringEnabled ==>
        metrics == NoMetrics.(peakPatterns := UpdatedPeaks([], timezone, hour, now))
      ensures !monitoringEnabled ==> metrics == NoMetrics
    {
      metrics := NoMetrics;
      new;
      if monitoringEnabled {
        UpdatePeakPatterns(timezone, hour, now);
      }
    }

    /** The invariant the operations keep, by the lemmas below the class. */
    ghost predicate Valid()
      reads this
    {
      MetricsValid(metrics)
    }

    /** `trackCreatorBehavior(userId, action)` at `now`, whose local hour is `hour`. */
    method TrackCreatorBehavior(userId: string, now: int, hour: nat)
      requires Valid()
      modifies this
      ensures Valid()
      ensures metrics == old(metrics).(creatorBehaviors := Tracked(old(metrics.creatorBehaviors), userId, now, hour))
    {
      var list := metrics.creatorBehaviors;
      var found := FindIndex(list, UserIdOf, userId);
      var i: nat;
      if found.None? {
        list := list + [NewBehavior(userId, now, hour)];
        i := |list| - 1;
      } else {
        i := found.value;
      }
      var daily := list[i].dailyPatterns;
      daily := daily.(activityCount := daily.activityCount + 1, timestamp := now);
      if hour !in daily.activeHours {
        daily := daily.(activeHours := daily.activeHours + [hour]);
      }
      list := list[i := list[i].(dailyPatterns := daily)];
      TrackKeepsValid(metrics, userId, now, hour);
      metrics := metrics.(creatorBehaviors := list);
    }

    /** `updatePeakPatterns` at `now`, in `timezone`, whose local hour is `hour`. */
    method UpdatePeakPatterns(timezone: string, hour: nat, now: int)
      requires Valid() && hour < 24
      modifies this
      ensures Valid()
      ensures metrics == old(metrics).(peakPatterns := UpdatedPeaks(old(metrics.peakPatterns), timezone, hour, now))
    {
      var found := FindIndex(metrics.peakPatterns, TimezoneOf, timezone);
      var base := if found.Some? then metrics.peakPatterns[found.value] else NewPattern(timezone, now);
      var dist := base.loadDistribution;
      var count: nat := if hour in dist then dist[hour] else 0;
      dist := dist[hour := count + 1];
      var pattern := base.(loadDistribution := dist, timestamp := now, peakHours := PeakHours(dist));
      CollectedStep(base, hour, now, count);
      PeaksKeepValid(metrics, timezone, hour, now);
      if found.Some? {
        metrics := metrics.(peakPatterns := metrics.peakPatterns[found.value := pattern]);
      } else {
        metrics := metrics.(peakPatterns := metrics.peakPatterns + [pattern]);
      }
    }

    /** `addPODSuccessRate(data)`: an upsert keyed by channel. */
    method AddPODSuccessRate(data: PODSuccessRate)
      requires Valid()
      modifies this
      ensures Valid()
      ensures metrics == old(metrics).(podSuccessRates := Upsert(old(metrics.podSuccessRates), ChannelOf, data))
    {
      var existing := FindIndex(metrics.podSuccessRates, ChannelOf, data.channel);
      PodUpsertKeepsValid(metrics, data);
      if existing.Some? {
        metrics := metrics.(podSuccessRates := metrics.podSuccessRates[existing.value := data]);
      } else {
        metrics := metrics.(podSuccessRates := metrics.podSuccessRates + [data]);
      }
    }

    /** `updateIntegrationHealth(data)`: an upsert keyed by channel name. */
    method UpdateIntegrationHealth(data: IntegrationHealth)
      requires Valid()
      modifies this
      ensures Valid()
      ensures metrics == old(metrics).(integrationHealth := Upsert(old(metrics.integrationHealth), ChannelNameOf, data))
    {
      var existing := FindIndex(metrics.integrationHealth, ChannelNameOf, data.channelName);
      HealthUpsertKeepsValid(metrics, data);
      if existing.Some? {
        metrics := metrics.(integrationHealth := metrics.integrationHealth[existing.value := data]);
      } else {
        metrics := metrics.(integrationHealth := metrics.integrationHealth + [data]);
      }
    }

    method AddTechDebt(data: TechDebt)
      requires Valid()
      modifies this
      ensures Valid()
      ensures metrics == old(metrics).(techDebt := old(metrics.techDebt) + [data])
    {
      metrics := metrics.(techDebt := metrics.techDebt + [data]);
    }

    method AddIncident(data: Incident)
      requires Valid()
      modifies this
      ensures Valid()
      ensures metrics == old(metrics).(incidents := old(metrics.incidents) + [data])
    {
      metrics := metrics.(incidents := metrics.incidents + [data]);
    }

    method AddDocumentationGap(data: DocumentationGap)
      requires Valid()
      modifies this
      ensures Valid()
      ensures metrics == old(metrics).(documentationGaps := old(metrics.documentationGaps) + [data])
    {
      metrics := metrics.(documentationGaps := metrics.documentationGaps + [data]);
    }

    method UpdateTechDebt(id: string, updates: TechDebtUpdate)
      requires Valid()
      modifies this
      ensures Valid()
      ensures metrics == old(metrics).(techDebt := UpdatedDebt(old(metrics.techDebt), id, updates))
    {
      var index := FindIndex(metrics.techDebt, DebtIdOf, id);
      if index.Some? {
        var i := index.value;
        metrics := metrics.(techDebt := metrics.techDebt[i := MergeTechDebt(metrics.techDebt[i], updates)]);
      }
    }

    method UpdateIncident(id: string, updates: IncidentUpdate)
      requires Valid()
      modifies this
      ensures Valid()
      ensures metrics == old(metrics).(incidents := UpdatedIncidents(old(metrics.incidents), id, updates))
    {
      var index := FindIndex(metrics.incidents, IncidentIdOf, id);
      if index.Some? {
        var i := index.value;
        metrics := metrics.(incidents := metrics.incidents[i := MergeIncident(metrics.incidents[i], updates)]);
      }
    }

    method UpdateDocumentationGap(id: string, updates: GapUpdate)
      requires Valid()
      modifies this
      ensures Valid()
      ensures metrics == old(metrics).(documentationGaps := UpdatedGaps(old(metrics.documentationGaps), id, updates))
    {
      var index := FindIndex(metrics.documentationGaps, GapIdOf, id);
      if index.Some? {
        var i := index.value;
        metrics := metrics.(documentationGaps := metrics.documentationGaps[i := MergeGap(metrics.documentationGaps[i], updates)]);
      }
    }

    /** `clearOldData` with the cutoff date the retention period gives. */
    method ClearOldData(cutoff: int)
      requires Valid()
      modifies this
      ensures Valid()
      ensures metrics == old(metrics).(
        incidents := RecentIncidents(old(metrics.incidents), cutoff),
        techDebt := RetainedDebt(old(metrics.techDebt), cutoff))
    {
      metrics := metrics.(incidents := RecentIncidents(metrics.incidents, cutoff));
      metrics := metrics.(techDebt := RetainedDebt(metrics.techDebt, cutoff));
    }
  }

  /** The invariant the operations keep: one entry per user, time zone,
      channel and channel name; no repeated active hour; and only hours of
      the day counted in a load distribution. */
  ghost predicate MetricsValid(m: MonitoringMetrics)
  {
    && UniqueKeys(m.creatorBehaviors, UserIdOf)
    && (forall i :: 0 <= i < |m.creatorBehaviors| ==> Distinct(m.creatorBehaviors[i].dailyPatterns.activeHours))
    && UniqueKeys(m.peakPatterns, TimezoneOf)
    && (forall i, h :: 0 <= i < |m.peakPatterns| && h in m.peakPatterns[i].loadDistribution ==> h < 24)
    && UniqueKeys(m.podSuccessRates, ChannelOf)
    && UniqueKeys(m.integrationHealth, ChannelNameOf)
  }

  lemma TrackKeepsValid(m: MonitoringMetrics, userId: string, now: int, hour: nat)
    requires MetricsValid(m)
    ensures MetricsValid(m.(creatorBehaviors := Tracked(m.creatorBehaviors, userId, now, hour)))
  {
    TrackedKeepsUnique(m.creatorBehaviors, userId, now, hour);
  }

  /** `getHours()` gives an hour of the day, so only such hours are counted. */
  lemma PeaksKeepValid(m: MonitoringMetrics, timezone: string, hour: nat, now: int)
    requires MetricsValid(m) && hour < 24
    ensures MetricsValid(m.(peakPatterns := UpdatedPeaks(m.peakPatterns, timezone, hour, now)))
  {
    var ps := m.peakPatterns;
    var r := UpdatedPeaks(ps, timezone, hour, now);
    UpdatedPeaksProperties(ps, timezone, hour, now);
    forall i, h | 0 <= i < |r| && h in r[i].loadDistribution ensures h < 24 {
      var f := FindIndex(ps, TimezoneOf, timezone);
      if f.Some? && i == f.value {
        CollectedCounts(ps[i], hour, now);
      } else if i < |ps| {
        assert r[i] == ps[i];
      } else {
        CollectedCounts(NewPattern(timezone, now), hour, now);
      }
    }
  }

  lemma PodUpsertKeepsValid(m: MonitoringMetrics, pod: PODSuccessRate)
    requires MetricsValid(m)
    ensures MetricsValid(m.(podSuccessRates := Upsert(m.podSuccessRates, ChannelOf, pod)))
  {
    UpsertProperties(m.podSuccessRates, ChannelOf, pod);
  }

  lemma HealthUpsertKeepsValid(m: MonitoringMetrics, health: IntegrationHealth)
    requires MetricsValid(m)
    ensures MetricsValid(m.(integrationHealth := Upsert(m.integrationHealth, ChannelNameOf, health)))
  {
    UpsertProperties(m.integrationHealth, ChannelNameOf, health);
  }
}
