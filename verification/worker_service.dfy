/** The in-memory generation-job store with retry and exponential backoff.

    The source's `processJob` is an async function: it marks the job
    `processing`, awaits `executeJob`, then records success or failure and,
    after a failure, schedules itself again with `setTimeout`. Here that
    function is split at its one suspension point:

    - `StartAttempt` is the part before the `await` (it runs synchronously
      inside `CreateJob` and inside a retry timer's callback, `RetryTimerFires`);
    - `FinishAttempt` is the part after it, given the attempt's outcome.

    Time and the outcome of `executeJob` (which draws on `Math.random`) are
    parameters. The pending retry timers and the awaiting attempts are ghost
    state, so that the attempt ceiling can be stated and proved. */
module WorkerService {
  import opened Wrappers
  import opened JsString
  import opened JsValue
  import opened FlashFusionTypes

  /** `maxRetries`: in fact a ceiling on the number of attempts. */
  const MaxRetries: nat := 3

  /** `retryDelay`, the backoff base in milliseconds. */
  const RetryDelayMs: nat := 5000

  const CancelledMessage: string := "Cancelled by user"

  const UnknownErrorMessage: string := "Unknown error"

  datatype JobStatus = Queued | Processing | Completed | Failed

  /** What `executeJob` threw: an `Error` (with its message) or any other value. */
  datatype Thrown = ErrorObject(message: string) | OtherValue

  /** How an awaited `executeJob` settled. */
  datatype AttemptOutcome = Succeeded | Threw(thrown: Thrown)

  /** The message recorded for a failed attempt. */
  function ErrorMessage(t: Thrown): (r: string)
    ensures t.ErrorObject? ==> r == t.message
    ensures t.OtherValue? ==> r == UnknownErrorMessage
  {
    match t
    case ErrorObject(m) => m
    case OtherValue => UnknownErrorMessage
  }


  function Pow2(n: nat): (r: nat)
    ensures r >= 1
  {
    if n == 0 then 1 else 2 * Pow2(n - 1)
  }

  /** The delay before the retry that follows the `retryCount`-th failure:
      `retryDelay * 2^(retryCount - 1)`. */
  function RetryDelay(retryCount: nat): (r: nat)
    requires retryCount >= 1
    ensures r >= RetryDelayMs
  {
    RetryDelayMs * Pow2(retryCount - 1)
  }

  lemma {:induction false} Pow2Increasing(m: nat, n: nat)
    requires m < n
    ensures Pow2(m) < Pow2(n)
    decreases n
  {
    if m < n - 1 {
      Pow2Increasing(m, n - 1);
    }
  }

  /** Every retry waits strictly longer than the one before it. */
  lemma RetryDelaysIncrease(m: nat, n: nat)
    requires 1 <= m < n
    ensures RetryDelay(m) < RetryDelay(n)
  {
    Pow2Increasing(m - 1, n - 1);
  }

  /** The delays of a job with the default ceiling: 5000 ms after the first
      failure, 10000 ms after the second (the third failure is final). */
  lemma DefaultRetrySchedule()
    ensures RetryDelay(1) == 5000 && RetryDelay(2) == 10000
    ensures MaxRetries == 3
  {
    assert Pow2(1) == 2;
  }

  /** A `GenerationJob` record. The source mutates these records in place and
      the awaiting attempt keeps a reference to its record, so a record is an
      object; the fields no code writes after creation are constants. */
  class Job {
    const id: string
    const assetType: AssetType
    const orgId: string
    const userId: string
    const prompt: string
    const parameters: Json
    var status: JobStatus
    var retryCount: nat
    const maxRetries: nat
    var error: Option<string>
    var resultAssetId: Option<string>
    const createdAt: nat
    var updatedAt: nat
    /** Attempts started on this record so far. */
    ghost var attempts: nat

    constructor (id: string, assetType: AssetType, orgId: string, userId: string, prompt: string,
                 parameters: Json, maxRetries: nat, now: nat)
      ensures this.id == id && this.assetType == assetType && this.orgId == orgId
      ensures this.userId == userId && this.prompt == prompt && this.parameters == parameters
      ensures status == Queued && retryCount == 0 && this.maxRetries == maxRetries
      ensures error == None && resultAssetId == None
      ensures createdAt == now && updatedAt == now && attempts == 0
    {
      this.id := id;
      this.assetType := assetType;
      this.orgId := orgId;
      this.userId := userId;
      this.prompt := prompt;
      this.parameters := parameters;
      status := Queued;
      retryCount := 0;
      this.maxRetries := maxRetries;
      error := None;
      resultAssetId := None;
      createdAt := now;
      updatedAt := now;
      attempts := 0;
    }
  }

  /** A finished job that `cleanupJobs` drops: completed or failed, and last
      updated more than `olderThanMs` before `now`. */
  ghost predicate Expired(j: Job, olderThanMs: int, now: nat)
    reads j
  {
    (j.status == Completed || j.status == Failed) && now - j.updatedAt > olderThanMs
  }

  /** The keys of the finished jobs in m that cleanup drops. */
  ghost function ExpiredKeys(m: map<string, Job>, olderThanMs: int, now: nat): (r: set<string>)
    reads m.Values
    ensures forall k :: k in r <==> k in m && Expired(m[k], olderThanMs, now)
  {
    set k | k in m && Expired(m[k], olderThanMs, now)
  }

  /** ks without the keys in dropped, in order. */
  function Kept<K(!new)>(ks: seq<K>, dropped: set<K>): (r: seq<K>)
    ensures |r| <= |ks|
    ensures forall k :: k in r <==> k in ks && k !in dropped
  {
    if ks == [] then []
    else
      var rest := Kept(ks[..|ks| - 1], dropped);
      if ks[|ks| - 1] in dropped then rest else rest + [ks[|ks| - 1]]
  }

  ghost predicate Distinct<K>(s: seq<K>)
  {
    forall i, j :: 0 <= i < j < |s| ==> s[i] != s[j]
  }

  lemma {:induction false} KeptDistinct<K(!new)>(ks: seq<K>, dropped: set<K>)
    requires Distinct(ks)
    ensures Distinct(Kept(ks, dropped))
  {
    if ks != [] {
      KeptDistinct(ks[..|ks| - 1], dropped);
    }
  }

  /** One step of the cleanup pass over the key order ks. */
  lemma KeptStep<K(!new)>(ks: seq<K>, i: nat, dropped: set<K>)
    requires i < |ks| && Distinct(ks)
    ensures ks[i..] == [ks[i]] + ks[i + 1..]
    ensures ks[i] !in Kept(ks[..i], dropped)
    ensures Kept(ks[..i + 1], dropped) == Kept(ks[..i], dropped) + if ks[i] in dropped then [] else [ks[i]]
  {
    assert ks[..i + 1][..i] == ks[..i];
    assert forall a :: a in ks[..i] ==> a != ks[i];
  }

  /** jobs is m0 less the dropped keys among the visited ones. */
  ghost predicate SweptFrom(jobs: map<string, Job>, m0: map<string, Job>, dropped: set<string>, visited: seq<string>)
  {
    && (forall k :: k in jobs <==> k in m0 && !(k in dropped && k in visited))
    && (forall k :: k in jobs ==> jobs[k] == m0[k])
  }

  lemma SweptFromStep(jobs: map<string, Job>, m0: map<string, Job>, dropped: set<string>, ks: seq<string>, i: nat,
                      jobs': map<string, Job>)
    requires i < |ks| && SweptFrom(jobs, m0, dropped, ks[..i])
    requires jobs' == if ks[i] in dropped then jobs - {ks[i]} else jobs
    ensures SweptFrom(jobs', m0, dropped, ks[..i + 1])
  {
    assert ks[..i + 1] == ks[..i] + [ks[i]];
  }

  lemma SweptAll(jobs: map<string, Job>, m0: map<string, Job>, dropped: set<string>, visited: seq<string>)
    requires SweptFrom(jobs, m0, dropped, visited)
    requires forall k :: k in m0 ==> k in visited
    ensures jobs == m0 - dropped
  {
  }

  /** How the cleanup pass's key order evolves when it visits ks[i]. */
  lemma SweepStep<K(!new)>(ks: seq<K>, i: nat, dropped: set<K>, order: seq<K>)
    requires i < |ks| && Distinct(ks)
    requires order == Kept(ks[..i], dropped) + ks[i..]
    ensures ks[i] in order && ks[i] !in ks[..i] && ks[i] !in Kept(ks[..i], dropped)
    ensures |Kept(ks[..i + 1], dropped)| == |Kept(ks[..i], dropped)| + if ks[i] in dropped then 0 else 1
    ensures ks[i] in dropped ==> Remove(order, ks[i]) == Kept(ks[..i + 1], dropped) + ks[i + 1..]
    ensures ks[i] !in dropped ==> order == Kept(ks[..i + 1], dropped) + ks[i + 1..]
    ensures forall k :: k in ks[..i + 1] <==> k in ks[..i] || k == ks[i]
  {
    KeptStep(ks, i, dropped);
    var kept := Kept(ks[..i], dropped);
    assert order == kept + [ks[i]] + ks[i + 1..];
    if ks[i] in dropped {
      RemoveAfter(kept, ks[i], ks[i + 1..]);
    }
    assert ks[..i + 1] == ks[..i] + [ks[i]];
  }

  /** s without its first occurrence of x (`Map.prototype.delete` on the key order). */
  function Remove<K(==)>(s: seq<K>, x: K): (r: seq<K>)
  {
    if s == [] then []
    else if s[0] == x then s[1..]
    else [s[0]] + Remove(s[1..], x)
  }

  lemma {:induction false} RemoveAfter<K>(a: seq<K>, x: K, b: seq<K>)
    requires x !in a
    ensures Remove(a + [x] + b, x) == a + b
  {
    var c := a + [x] + b;
    if a == [] {
      assert c[0] == x && c[1..] == b;
    } else {
      assert c[0] == a[0] != x && c[1..] == a[1..] + [x] + b;
      RemoveAfter(a[1..], x, b);
      assert a + b == [a[0]] + (a[1..] + b);
    }
  }

  /** The stored jobs of `orgId`, following the key order ks. */
  function ByOrg(ks: seq<string>, m: map<string, Job>, orgId: string): (r: seq<Job>)
    requires forall k :: k in ks ==> k in m
    ensures forall i :: 0 <= i < |r| ==> r[i] in m.Values && r[i].orgId == orgId
    ensures forall k :: k in ks && m[k].orgId == orgId ==> m[k] in r
  {
    if ks == [] then []
    else
      var rest := ByOrg(ks[..|ks| - 1], m, orgId);
      var j := m[ks[|ks| - 1]];
      if j.orgId == orgId then rest + [j] else rest
  }

  /** The stored jobs whose status is `status`, following the key order ks. */
  ghost function ByStatus(ks: seq<string>, m: map<string, Job>, status: JobStatus): (r: seq<Job>)
    requires forall k :: k in ks ==> k in m
    reads m.Values
    ensures forall i :: 0 <= i < |r| ==> r[i] in m.Values && r[i].status == status
    ensures forall k :: k in ks && m[k].status == status ==> m[k] in r
  {
    if ks == [] then []
    else
      var rest := ByStatus(ks[..|ks| - 1], m, status);
      var j := m[ks[|ks| - 1]];
      if j.status == status then rest + [j] else rest
  }

  /** With every key of m in ks, ByOrg holds exactly the organisation's jobs. */
  lemma ByOrgAll(ks: seq<string>, m: map<string, Job>, orgId: string)
    requires forall k :: k in ks <==> k in m
    ensures forall j :: j in ByOrg(ks, m, orgId) <==> j in m.Values && j.orgId == orgId
  {
    forall j | j in m.Values && j.orgId == orgId ensures j in ByOrg(ks, m, orgId) {
      var k :| k in m && m[k] == j;
      assert k in ks;
    }
  }

  /** With every key of m in ks, ByStatus holds exactly the jobs with that status. */
  lemma ByStatusAll(ks: seq<string>, m: map<string, Job>, status: JobStatus)
    requires forall k :: k in ks <==> k in m
    ensures forall j :: j in ByStatus(ks, m, status) <==> j in m.Values && j.status == status
  {
    forall j | j in m.Values && j.status == status ensures j in ByStatus(ks, m, status) {
      var k :| k in m && m[k] == j;
      assert k in ks;
    }
  }

  class WorkerService {
    /** The `jobs` Map. */
    var jobs: map<string, Job>
    /** The Map's key order: insertion order, which its iteration follows. */
    var order: seq<string>
    /** Every job record this service has created. */
    ghost var Repr: set<Job>
    /** Jobs with a retry pending in a `setTimeout` callback. */
    ghost var timers: set<Job>
    /** Jobs whose current attempt is awaiting `executeJob`. */
    ghost var inFlight: set<Job>

    ghost predicate Valid()
      reads this, Repr
    {
      && Distinct(order)
      && (forall k :: k in jobs <==> k in order)
      && (forall k :: k in jobs ==> jobs[k] in Repr && jobs[k].id == k)
      && (forall a, b :: a in Repr && b in Repr && a.id == b.id ==> a == b)
      && timers <= Repr && inFlight <= Repr && timers !! inFlight
      // the attempt ceiling, and how attempts relate to recorded failures
      && (forall j :: j in Repr ==> j.retryCount <= j.attempts <= j.maxRetries)
      && (forall j :: j in timers ==> j.attempts == j.retryCount < j.maxRetries)
      && (forall j :: j in inFlight ==> j.attempts == j.retryCount + 1)
    }

    /** The ids of all records ever created. */
    ghost function Ids(): set<string>
      reads this
    {
      set j | j in Repr :: j.id
    }

    constructor ()
      ensures Valid() && fresh(Repr)
      ensures jobs == map[] && order == [] && timers == {} && inFlight == {}
    {
      jobs := map[];
      order := [];
      Repr := {};
      timers := {};
      inFlight := {};
    }

    /** `this.jobs.set(job.id, job)`: overwrite in place, or append a new key. */
    method Put(job: Job)
      requires Valid() && job in Repr
      modifies this
      ensures Valid()
      ensures jobs == old(jobs)[job.id := job]
      ensures order == if job.id in old(jobs) then old(order) else old(order) + [job.id]
      ensures Repr == old(Repr) && timers == old(timers) && inFlight == old(inFlight)
    {
      if job.id !in jobs {
        order := order + [job.id];
      }
      jobs := jobs[job.id := job];
    }

    /** `createJob`: build a queued record under the supplied fresh id, store
        it, and start its first attempt; the synchronous part of `processJob`
        runs before `createJob` returns, so the job comes back `processing`. */
    method CreateJob(id: string, assetType: AssetType, orgId: string, userId: string, prompt: string,
                     parameters: Json, now: nat) returns (job: Job)
      requires Valid()
      requires id !in Ids()
      modifies this
      ensures Valid() && fresh(job) && Repr == old(Repr) + {job}
      ensures jobs == old(jobs)[id := job] && id !in old(jobs) && order == old(order) + [id]
      ensures job.id == id && job.assetType == assetType && job.orgId == orgId
      ensures job.userId == userId && job.prompt == prompt && job.parameters == parameters
      ensures job.status == Processing && job.retryCount == 0 && job.maxRetries == MaxRetries
      ensures job.error == None && job.resultAssetId == None
      ensures job.createdAt == now && job.updatedAt == now && job.attempts == 1
      ensures timers == old(timers) && inFlight == old(inFlight) + {job}
    {
      job := new Job(id, assetType, orgId, userId, prompt, parameters, MaxRetries, now);
      assert id !in jobs;
      Repr := Repr + {job};
      Put(job);
      StartAttempt(id, now, job);
    }

    /** The part of `processJob` before its `await`: look the id up, and if
        the job is still stored, mark it `processing` whatever its status. */
    method StartAttempt(jobId: string, now: nat, ghost job: Job)
      requires Valid()
      requires job in Repr && job.id == jobId && job !in timers && job !in inFlight
      requires job.attempts == job.retryCount < job.maxRetries
      modifies this, job
      ensures Valid()
      ensures jobs == old(jobs) && order == old(order) && Repr == old(Repr) && timers == old(timers)
      ensures jobId !in jobs ==> inFlight == old(inFlight) && unchanged(job)
      ensures jobId in jobs ==> jobs[jobId] == job && inFlight == old(inFlight) + {job}
      ensures jobId in jobs ==> job.status == Processing && job.updatedAt == now && job.attempts == old(job.attempts) + 1
      ensures job.retryCount == old(job.retryCount) && job.error == old(job.error)
      ensures job.resultAssetId == old(job.resultAssetId)
    {
      if jobId !in jobs {
        return;
      }
      var j := jobs[jobId];
      assert j == job;
      j.status := Processing;
      j.updatedAt := now;
      j.attempts := j.attempts + 1;
      inFlight := inFlight + {j};
    }

    /** The callback of a retry timer: `() => this.processJob(jobId)`. */
    method RetryTimerFires(jobId: string, now: nat, ghost job: Job)
      requires Valid() && job in timers && job.id == jobId
      modifies this, job
      ensures Valid()
      ensures jobs == old(jobs) && order == old(order) && Repr == old(Repr)
      ensures timers == old(timers) - {job}
      ensures jobId !in jobs ==> inFlight == old(inFlight) && unchanged(job)
      ensures jobId in jobs ==> inFlight == old(inFlight) + {job}
      ensures jobId in jobs ==> job.status == Processing && job.updatedAt == now && job.attempts == old(job.attempts) + 1
      ensures job.retryCount == old(job.retryCount) && job.error == old(job.error)
      ensures job.resultAssetId == old(job.resultAssetId)
    {
      timers := timers - {job};
      StartAttempt(jobId, now, job);
    }

    /** The part of `processJob` after its `await`, on the record the attempt
        holds. Success marks the job completed with a result id (an earlier
        error stays); failure counts it and either requeues it behind a timer,
        returning the delay, or marks it failed. Neither branch looks at the
        current status, and both store the record under its id again, so a
        cancelled job is overwritten and a record cleanup removed in the
        meantime comes back. */
    method FinishAttempt(job: Job, outcome: AttemptOutcome, now: nat) returns (delay: Option<nat>)
      requires Valid() && job in inFlight
      modifies this, job
      ensures Valid()
      ensures jobs == old(jobs)[job.id := job]
      ensures order == if job.id in old(jobs) then old(order) else old(order) + [job.id]
      ensures Repr == old(Repr) && inFlight == old(inFlight) - {job}
      ensures job.updatedAt == now && job.attempts == old(job.attempts)
      ensures outcome.Succeeded? ==>
        && job.status == Completed
        && job.resultAssetId == Some("asset_" + NatToString(now, 10))
        && job.retryCount == old(job.retryCount) && job.error == old(job.error)
        && delay == None && timers == old(timers)
      ensures outcome.Threw? ==>
        && job.retryCount == old(job.retryCount) + 1
        && job.error == Some(ErrorMessage(outcome.thrown))
        && job.resultAssetId == old(job.resultAssetId)
      ensures outcome.Threw? && job.retryCount < job.maxRetries ==>
        job.status == Queued && delay == Some(RetryDelay(job.retryCount)) && timers == old(timers) + {job}
      ensures outcome.Threw? && job.retryCount >= job.maxRetries ==>
        job.status == Failed && delay == None && timers == old(timers)
    {
      inFlight := inFlight - {job};
      if outcome.Succeeded? {
        Complete(job, now);
        delay := None;
      } else {
        delay := RecordFailure(job, outcome.thrown, now);
      }
    }

    /** The success branch of `processJob`. */
    method Complete(job: Job, now: nat)
      requires Valid() && job in Repr && job !in timers && job !in inFlight
      modifies this, job
      ensures Valid()
      ensures jobs == old(jobs)[job.id := job]
      ensures order == if job.id in old(jobs) then old(order) else old(order) + [job.id]
      ensures Repr == old(Repr) && inFlight == old(inFlight) && timers == old(timers)
      ensures job.updatedAt == now && job.attempts == old(job.attempts)
      ensures job.status == Completed && job.resultAssetId == Some("asset_" + NatToString(now, 10))
      ensures job.retryCount == old(job.retryCount) && job.error == old(job.error)
    {
      job.status := Completed;
      job.resultAssetId := Some("asset_" + NatToString(now, 10));
      job.updatedAt := now;
      Put(job);
    }

    /** The failure branch of `processJob`: count the failure, then requeue
        the job behind a timer or mark it failed. */
    method RecordFailure(job: Job, thrown: Thrown, now: nat) returns (delay: Option<nat>)
      requires Valid() && job in Repr && job !in timers && job !in inFlight
      requires job.attempts == job.retryCount + 1
      modifies this, job
      ensures Valid()
      ensures jobs == old(jobs)[job.id := job]
      ensures order == if job.id in old(jobs) then old(order) else old(order) + [job.id]
      ensures Repr == old(Repr) && inFlight == old(inFlight)
      ensures job.updatedAt == now && job.attempts == old(job.attempts)
      ensures job.retryCount == old(job.retryCount) + 1
      ensures job.error == Some(ErrorMessage(thrown))
      ensures job.resultAssetId == old(job.resultAssetId)
      ensures job.retryCount < job.maxRetries ==>
        job.status == Queued && delay == Some(RetryDelay(job.retryCount)) && timers == old(timers) + {job}
      ensures job.retryCount >= job.maxRetries ==>
        job.status == Failed && delay == None && timers == old(timers)
    {
      job.retryCount := job.retryCount + 1;
      job.updatedAt := now;
      if job.retryCount < job.maxRetries {
        delay := Some(RetryDelay(job.retryCount));
        job.status := Queued;
        job.error := Some(ErrorMessage(thrown));
        timers := timers + {job};
        Put(job);
      } else {
        job.status := Failed;
        job.error := Some(ErrorMessage(thrown));
        Put(job);
        delay := None;
      }
    }

    /** `getJob`: the stored record, or an explicit not-found. */
    method GetJob(jobId: string) returns (r: Option<Job>)
      requires Valid()
      ensures r.Some? <==> jobId in jobs
      ensures r.Some? ==> r.value == jobs[jobId] && r.value.id == jobId
    {
      r := if jobId in jobs then Some(jobs[jobId]) else None;
    }

    /** `getJobsByOrg`: the stored jobs of the organisation, in Map order. */
    method GetJobsByOrg(orgId: string) returns (r: seq<Job>)
      requires Valid()
      ensures r == ByOrg(order, jobs, orgId)
      ensures forall j :: j in r <==> j in jobs.Values && j.orgId == orgId
    {
      r := [];
      var i := 0;
      while i < |order|
        invariant 0 <= i <= |order|
        invariant r == ByOrg(order[..i], jobs, orgId)
      {
        var j := jobs[order[i]];
        if j.orgId == orgId {
          r := r + [j];
        }
        assert order[..i + 1][..i] == order[..i];
        i := i + 1;
      }
      assert order[..i] == order;
      ByOrgAll(order, jobs, orgId);
    }

    /** `getJobsByStatus`: the stored jobs with the given status, in Map order. */
    method GetJobsByStatus(status: JobStatus) returns (r: seq<Job>)
      requires Valid()
      ensures r == ByStatus(order, jobs, status)
      ensures forall j :: j in r <==> j in jobs.Values && j.status == status
    {
      r := [];
      var i := 0;
      while i < |order|
        invariant 0 <= i <= |order|
        invariant r == ByStatus(order[..i], jobs, status)
      {
        var j := jobs[order[i]];
        if j.status == status {
          r := r + [j];
        }
        assert order[..i + 1][..i] == order[..i];
        i := i + 1;
      }
      assert order[..i] == order;
      ByStatusAll(order, jobs, status);
    }

    /** The record stored under jobId, as a frame. */
    function JobAt(jobId: string): set<Job>
      reads this
    {
      if jobId in jobs then {jobs[jobId]} else {}
    }

    /** `cancelJob`: a queued or processing job becomes failed with the
        cancellation message; an unknown or finished one is left alone. A
        pending retry timer or an awaiting attempt is not stopped. */
    method CancelJob(jobId: string, now: nat) returns (cancelled: bool)
      requires Valid()
      modifies JobAt(jobId)
      ensures Valid()
      ensures cancelled <==> jobId in jobs && old(jobs[jobId].status) in {Queued, Processing}
      ensures !cancelled ==> unchanged(JobAt(jobId))
      ensures cancelled ==>
        var j := jobs[jobId];
        && j.status == Failed && j.error == Some(CancelledMessage) && j.updatedAt == now
        && j.retryCount == old(j.retryCount) && j.resultAssetId == old(j.resultAssetId)
        && j.attempts == old(j.attempts)
    {
      if jobId !in jobs {
        return false;
      }
      var job := jobs[jobId];
      if job.status == Completed || job.status == Failed {
        return false;
      }
      job.status := Failed;
      job.error := Some(CancelledMessage);
      job.updatedAt := now;
      cancelled := true;
    }

    /** `this.jobs.delete(jobId)` on a stored key. */
    method Delete(jobId: string)
      requires jobId in jobs
      modifies this
      ensures jobs == old(jobs) - {jobId} && order == Remove(old(order), jobId)
      ensures Repr == old(Repr) && timers == old(timers) && inFlight == old(inFlight)
    {
      jobs := jobs - {jobId};
      order := Remove(order, jobId);
    }

    /** One iteration of the cleanup pass: visit keys[i] and delete it when
        its job is finished and stale. */
    method CleanupStep(keys: seq<string>, i: nat, ghost dead: set<string>, ghost m0: map<string, Job>, olderThanMs: int, now: nat)
      returns (removed: bool)
      requires i < |keys| && Distinct(keys) && keys[i] in m0
      requires order == Kept(keys[..i], dead) + keys[i..]
      requires SweptFrom(jobs, m0, dead, keys[..i])
      requires forall k :: k in m0 ==> (k in dead <==> Expired(m0[k], olderThanMs, now))
      modifies this
      ensures removed <==> keys[i] in dead
      ensures order == Kept(keys[..i + 1], dead) + keys[i + 1..]
      ensures removed ==> |Kept(keys[..i + 1], dead)| == |Kept(keys[..i], dead)|
      ensures !removed ==> |Kept(keys[..i + 1], dead)| == |Kept(keys[..i], dead)| + 1
      ensures SweptFrom(jobs, m0, dead, keys[..i + 1])
      ensures forall k :: k in m0 ==> (k in dead <==> Expired(m0[k], olderThanMs, now))
      ensures Repr == old(Repr) && timers == old(timers) && inFlight == old(inFlight)
    {
      var k := keys[i];
      SweepStep(keys, i, dead, order);
      ghost var before := jobs;
      var job := jobs[k];
      removed := (job.status == Completed || job.status == Failed) && now - job.updatedAt > olderThanMs;
      if removed {
        Delete(k);
      }
      SweptFromStep(before, m0, dead, keys, i, jobs);
    }

    /** `cleanupJobs`: delete, in one pass over the Map, every completed or
        failed job last updated more than `olderThanMs` before now, and
        return how many were deleted. */
    method CleanupJobs(olderThanMs: int, now: nat) returns (cleaned: nat)
      requires Valid()
      modifies this
      ensures Valid()
      ensures order == Kept(old(order), ExpiredKeys(old(jobs), olderThanMs, now))
      ensures jobs == old(jobs) - ExpiredKeys(old(jobs), olderThanMs, now)
      ensures cleaned == |old(order)| - |order|
      ensures Repr == old(Repr) && timers == old(timers) && inFlight == old(inFlight)
    {
      ghost var dead := ExpiredKeys(jobs, olderThanMs, now);
      cleaned := Sweep(dead, jobs, olderThanMs, now);
      KeptDistinct(old(order), dead);
    }

    /** The loop of `cleanupJobs` over the Map's keys, in insertion order. */
    method Sweep(ghost dead: set<string>, ghost m0: map<string, Job>, olderThanMs: int, now: nat) returns (cleaned: nat)
      requires Distinct(order) && (forall k :: k in jobs <==> k in order) && jobs == m0
      requires forall k :: k in m0 ==> (k in dead <==> Expired(m0[k], olderThanMs, now))
      requires dead <= m0.Keys
      modifies this
      ensures order == Kept(old(order), dead) && jobs == m0 - dead
      ensures cleaned == |old(order)| - |order|
      ensures Repr == old(Repr) && timers == old(timers) && inFlight == old(inFlight)
    {
      var keys := order;
      var i := 0;
      cleaned := 0;
      assert keys[..0] == [] && keys[0..] == keys;
      while i < |keys|
        invariant 0 <= i <= |keys|
        invariant order == Kept(keys[..i], dead) + keys[i..]
        invariant cleaned == i - |Kept(keys[..i], dead)|
        invariant SweptFrom(jobs, m0, dead, keys[..i])
        invariant forall k :: k in m0 ==> (k in dead <==> Expired(m0[k], olderThanMs, now))
        invariant Repr == old(Repr) && timers == old(timers) && inFlight == old(inFlight)
      {
        var removed := CleanupStep(keys, i, dead, m0, olderThanMs, now);
        if removed {
          cleaned := cleaned + 1;
        }
        i := i + 1;
      }
      assert keys[..i] == keys;
      SweptAll(jobs, m0, dead, keys);
    }
  }

  /** An attempt that throws an `Error` with message msg while retries
      remain, followed by its retry timer. */
  method FailThenRetry(svc: WorkerService, job: Job, msg: string, now: nat) returns (delay: Option<nat>)
    requires svc.Valid() && job in svc.inFlight && job.id in svc.jobs && svc.jobs[job.id] == job
    requires job.retryCount + 1 < job.maxRetries
    modifies svc, job
    ensures svc.Valid() && job in svc.inFlight && job !in svc.timers
    ensures svc.jobs == old(svc.jobs) && svc.order == old(svc.order)
    ensures job.retryCount == old(job.retryCount) + 1 && delay == Some(RetryDelay(job.retryCount))
    ensures job.attempts == old(job.attempts) + 1
    ensures job.status == Processing && job.error == Some(msg)
  {
    delay := svc.FinishAttempt(job, Threw(ErrorObject(msg)), now);
    svc.RetryTimerFires(job.id, now + 1, job);
  }

  /** A job whose every attempt fails: three attempts, retries after 5000 and
      10000 ms, then `failed` with retryCount 3. */
  method AlwaysFailingScenario(svc: WorkerService, id: string, org: string, user: string, t: nat)
    returns (job: Job, delays: seq<Option<nat>>)
    requires svc.Valid() && id !in svc.Ids()
    modifies svc
    ensures delays == [Some(5000), Some(10000), None]
    ensures job.status == Failed && job.retryCount == 3 && job.error == Some("Unknown error")
    ensures job !in svc.timers && job !in svc.inFlight
  {
    job := svc.CreateJob(id, Text, org, user, "prompt", Obj([]), t);
    var d1 := FailThenRetry(svc, job, "boom", t + 1);
    var d2 := FailThenRetry(svc, job, "boom", t + 3);
    assert d1 == Some(5000) && d2 == Some(10000) by { DefaultRetrySchedule(); }
    var d3 := svc.FinishAttempt(job, Threw(OtherValue), t + 5);
    delays := [d1, d2, d3];
  }

  /** Two failures then a success: completed after three attempts, and the
      error of the second failure is still recorded. */
  method EventualSuccessScenario(svc: WorkerService, id: string, t: nat) returns (job: Job)
    requires svc.Valid() && id !in svc.Ids()
    modifies svc
    ensures job.status == Completed && job.resultAssetId.Some?
    ensures job.error == Some("second") && job.attempts == 3
  {
    job := svc.CreateJob(id, Image, "org", "user", "prompt", Obj([]), t);
    var _ := FailThenRetry(svc, job, "first", t);
    var _ := FailThenRetry(svc, job, "second", t + 1);
    var _ := svc.FinishAttempt(job, Succeeded, t);
  }

  /** Cancelling twice gives true then false; a late success of the attempt
      that was awaiting still overwrites the cancellation. */
  method CancelScenario(svc: WorkerService, id: string, t: nat) returns (job: Job, first: bool, second: bool)
    requires svc.Valid() && id !in svc.Ids()
    modifies svc
    ensures first && !second
    ensures job.status == Completed && job.error == Some(CancelledMessage)
  {
    job := svc.CreateJob(id, Video, "org", "user", "prompt", Obj([]), t);
    first := svc.CancelJob(id, t + 1);
    second := svc.CancelJob(id, t + 2);
    assert job.status == Failed && job.error == Some(CancelledMessage);
    var _ := svc.FinishAttempt(job, Succeeded, t + 3);
  }

  /** A job cancelled while its retry timer is pending is set back to
      `processing` when the timer fires. */
  method CancelledRetryScenario(svc: WorkerService, id: string, t: nat) returns (job: Job, cancelled: bool)
    requires svc.Valid() && id !in svc.Ids()
    modifies svc
    ensures cancelled && job.status == Processing
  {
    job := svc.CreateJob(id, Music, "org", "user", "prompt", Obj([]), t);
    var _ := svc.FinishAttempt(job, Threw(OtherValue), t);
    cancelled := svc.CancelJob(id, t);
    assert job.status == Failed;
    svc.RetryTimerFires(id, t, job);
  }
}
