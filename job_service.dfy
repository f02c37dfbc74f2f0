/**
 * The job-execution engine (backend/internal/service/job_service.go):
 * submission, the status query and the run of a job.
 *
 * The run in the source fans out one goroutine per image and joins on all of
 * them; every goroutine writes its own result slot, so the only thing that
 * depends on scheduling is the order in which errors are appended. Here the
 * run is sequential, and what it promises about errors is stated up to that
 * order (as multisets and counts). The image worker is an oracle from image
 * URL to outcome.
 */
module Service {
  import opened Models
  import opened JobRepository
  import opened StoreRepository

  /** What the image worker yields for one URL: a perimeter, or an error message. */
  datatype WorkOutcome = Measured(perimeter: real) | WorkError(message: string)

  type ImageWorker = string -> WorkOutcome

  const StoreNotFoundMessage := "store not found"

  /** The message recorded against a job when the worker fails on `url`. */
  function ImageFailureMessage(url: string, cause: string): string {
    "failed to process image " + url + ": " + cause
  }

  /** The result slot written for `url` once the worker has produced `outcome`. */
  function SlotFor(url: string, outcome: WorkOutcome): (r: ImageResult)
    ensures r.url == url && (r.processed <==> outcome.Measured?)
    ensures outcome.Measured? ==> r.perimeter == outcome.perimeter && r.error == ""
    ensures outcome.WorkError? ==> r.error == outcome.message
  {
    match outcome
    case Measured(p) => UnwrittenResult.(url := url, perimeter := p, processed := true)
    case WorkError(msg) => UnwrittenResult.(url := url, error := msg)
  }

  /**
   * The results of a visit whose store is known: one slot per image URL, in
   * URL order, processed exactly when the worker succeeded on that URL, and
   * carrying the worker's message when it did not.
   */
  function ImageResults(urls: seq<string>, worker: ImageWorker): (r: seq<ImageResult>)
    ensures |r| == |urls|
    ensures forall j :: 0 <= j < |urls| ==>
      r[j].url == urls[j] && (r[j].processed <==> worker(urls[j]).Measured?)
    ensures forall j :: 0 <= j < |urls| && worker(urls[j]).Measured? ==>
      r[j].perimeter == worker(urls[j]).perimeter && r[j].error == ""
    ensures forall j :: 0 <= j < |urls| && worker(urls[j]).WorkError? ==>
      r[j].error == worker(urls[j]).message
  {
    seq(|urls|, j requires 0 <= j < |urls| => SlotFor(urls[j], worker(urls[j])))
  }

  /** The errors the images of one known-store visit contribute, in URL order. */
  function ImageErrors(storeId: string, urls: seq<string>, worker: ImageWorker): (r: seq<JobError>)
    ensures forall e :: e in r ==> e.storeId == storeId
  {
    if urls == [] then []
    else
      var url := urls[|urls| - 1];
      ImageErrors(storeId, urls[..|urls| - 1], worker) +
        match worker(url)
        case Measured(_) => []
        case WorkError(msg) => [JobError(storeId, ImageFailureMessage(url, msg))]
  }

  /** How many of `urls` the worker fails on. */
  function CountFailures(urls: seq<string>, worker: ImageWorker): nat {
    if urls == [] then 0
    else (if worker(urls[0]).WorkError? then 1 else 0) + CountFailures(urls[1..], worker)
  }

  /** How many of `visits` name a store the catalog does not hold. */
  function CountUnknown(visits: seq<Visit>, catalog: map<string, Store>): nat {
    if visits == [] then 0
    else (if visits[0].storeId !in catalog then 1 else 0) + CountUnknown(visits[1..], catalog)
  }

  /** How many images of known-store visits the worker fails on. */
  function CountImageFailures(visits: seq<Visit>, catalog: map<string, Store>, worker: ImageWorker): nat {
    if visits == [] then 0
    else
      (if visits[0].storeId in catalog then CountFailures(visits[0].imageUrls, worker) else 0)
        + CountImageFailures(visits[1..], catalog, worker)
  }

  lemma {:induction false} CountFailuresAppend(urls: seq<string>, url: string, worker: ImageWorker)
    ensures CountFailures(urls + [url], worker)
         == CountFailures(urls, worker) + if worker(url).WorkError? then 1 else 0
  {
    if urls != [] {
      assert (urls + [url])[1..] == urls[1..] + [url];
      CountFailuresAppend(urls[1..], url, worker);
    }
  }

  lemma {:induction false} CountUnknownAppend(visits: seq<Visit>, v: Visit, catalog: map<string, Store>)
    ensures CountUnknown(visits + [v], catalog)
         == CountUnknown(visits, catalog) + if v.storeId !in catalog then 1 else 0
  {
    if visits != [] {
      assert (visits + [v])[1..] == visits[1..] + [v];
      CountUnknownAppend(visits[1..], v, catalog);
    }
  }

  lemma {:induction false} CountImageFailuresAppend(
    visits: seq<Visit>, v: Visit, catalog: map<string, Store>, worker: ImageWorker)
    ensures CountImageFailures(visits + [v], catalog, worker)
         == CountImageFailures(visits, catalog, worker)
            + if v.storeId in catalog then CountFailures(v.imageUrls, worker) else 0
  {
    if visits != [] {
      assert (visits + [v])[1..] == visits[1..] + [v];
      CountImageFailuresAppend(visits[1..], v, catalog, worker);
    }
  }

  /** A known-store visit records exactly one error per image the worker fails on. */
  lemma {:induction false} ImageErrorsCount(storeId: string, urls: seq<string>, worker: ImageWorker)
    ensures |ImageErrors(storeId, urls, worker)| == CountFailures(urls, worker)
  {
    if urls != [] {
      var n := |urls| - 1;
      ImageErrorsCount(storeId, urls[..n], worker);
      CountFailuresAppend(urls[..n], urls[n], worker);
      assert urls[..n] + [urls[n]] == urls;
    }
  }

  /**
   * A URL the worker fails on contributes its "failed to process image" error,
   * tagged with the visit's store.
   */
  lemma {:induction false} ImageErrorsContain(storeId: string, urls: seq<string>, worker: ImageWorker, j: nat)
    requires j < |urls| && worker(urls[j]).WorkError?
    ensures JobError(storeId, ImageFailureMessage(urls[j], worker(urls[j]).message)) in ImageErrors(storeId, urls, worker)
  {
    var n := |urls| - 1;
    if j < n {
      ImageErrorsContain(storeId, urls[..n], worker, j);
      assert urls[..n][j] == urls[j];
    }
  }

  /**
   * The errors one visit contributes: a single "store not found" error when
   * its store is unknown, otherwise those of its failed images.
   */
  function VisitErrors(v: Visit, catalog: map<string, Store>, worker: ImageWorker): (r: seq<JobError>)
    ensures v.storeId !in catalog ==> r == [JobError(v.storeId, StoreNotFoundMessage)]
  {
    if v.storeId !in catalog then [JobError(v.storeId, StoreNotFoundMessage)]
    else ImageErrors(v.storeId, v.imageUrls, worker)
  }

  /**
   * A visit whose store is known contributes one error per image the worker
   * fails on, each tagged with the visit's store.
   */
  lemma KnownStoreVisitErrors(v: Visit, catalog: map<string, Store>, worker: ImageWorker)
    requires v.storeId in catalog
    ensures |VisitErrors(v, catalog, worker)| == CountFailures(v.imageUrls, worker)
    ensures forall e :: e in VisitErrors(v, catalog, worker) ==> e.storeId == v.storeId
  {
    ImageErrorsCount(v.storeId, v.imageUrls, worker);
  }

  /** All errors a run over `visits` records, in visit order. */
  function RunErrors(visits: seq<Visit>, catalog: map<string, Store>, worker: ImageWorker): seq<JobError> {
    if visits == [] then []
    else
      var n := |visits| - 1;
      RunErrors(visits[..n], catalog, worker) + VisitErrors(visits[n], catalog, worker)
  }

  /** Every error a run records is tagged with the store of one of its visits. */
  lemma {:induction false} RunErrorsTagged(visits: seq<Visit>, catalog: map<string, Store>, worker: ImageWorker)
    ensures forall e :: e in RunErrors(visits, catalog, worker) ==>
      exists i :: 0 <= i < |visits| && e.storeId == visits[i].storeId
  {
    if visits != [] {
      var n := |visits| - 1;
      RunErrorsTagged(visits[..n], catalog, worker);
      forall e | e in RunErrors(visits, catalog, worker)
        ensures exists i :: 0 <= i < |visits| && e.storeId == visits[i].storeId
      {
        if e in RunErrors(visits[..n], catalog, worker) {
          var i :| 0 <= i < n && e.storeId == visits[..n][i].storeId;
          assert e.storeId == visits[i].storeId;
        } else {
          assert e.storeId == visits[n].storeId;
        }
      }
    }
  }

  /**
   * A run records one error per unknown-store visit plus one per failed image
   * of a known-store visit.
   */
  lemma {:induction false} RunErrorsCount(visits: seq<Visit>, catalog: map<string, Store>, worker: ImageWorker)
    ensures |RunErrors(visits, catalog, worker)|
         == CountUnknown(visits, catalog) + CountImageFailures(visits, catalog, worker)
  {
    if visits != [] {
      var n := |visits| - 1;
      RunErrorsCount(visits[..n], catalog, worker);
      CountUnknownAppend(visits[..n], visits[n], catalog);
      CountImageFailuresAppend(visits[..n], visits[n], catalog, worker);
      if visits[n].storeId in catalog {
        KnownStoreVisitErrors(visits[n], catalog, worker);
      }
      assert visits[..n] + [visits[n]] == visits;
    }
  }

  /** Extending the visits processed so far by visit `i` appends that visit's errors. */
  lemma RunErrorsStep(visits: seq<Visit>, i: nat, catalog: map<string, Store>, worker: ImageWorker)
    requires i < |visits|
    ensures RunErrors(visits[..i + 1], catalog, worker)
         == RunErrors(visits[..i], catalog, worker) + VisitErrors(visits[i], catalog, worker)
  {
    assert visits[..i + 1][..i] == visits[..i];
  }

  /**
   * Concatenation is associative. This is a proof aid for RunVisits, not part
   * of the model: stated over an arbitrary element type, using it never
   * unfolds the functions that produced the operands.
   */
  lemma AppendAssoc<T>(a: seq<T>, b: seq<T>, c: seq<T>)
    ensures (a + b) + c == a + (b + c)
  {
  }

  /** Some visit names a store the catalog does not hold. */
  predicate SomeStoreUnknown(visits: seq<Visit>, catalog: map<string, Store>) {
    exists i :: 0 <= i < |visits| && visits[i].storeId !in catalog
  }

  /** The worker fails on some image of some known-store visit. */
  predicate SomeImageFailed(visits: seq<Visit>, catalog: map<string, Store>, worker: ImageWorker) {
    exists i, j :: 0 <= i < |visits| && visits[i].storeId in catalog &&
      0 <= j < |visits[i].imageUrls| && worker(visits[i].imageUrls[j]).WorkError?
  }

  lemma {:induction false} CountFailuresPositive(urls: seq<string>, worker: ImageWorker)
    ensures CountFailures(urls, worker) > 0 <==> exists j :: 0 <= j < |urls| && worker(urls[j]).WorkError?
  {
    if urls != [] {
      CountFailuresPositive(urls[1..], worker);
      if CountFailures(urls[1..], worker) > 0 {
        var j :| 0 <= j < |urls[1..]| && worker(urls[1..][j]).WorkError?;
        assert worker(urls[j + 1]).WorkError?;
      }
      if exists j :: 0 <= j < |urls| && worker(urls[j]).WorkError? {
        var j :| 0 <= j < |urls| && worker(urls[j]).WorkError?;
        if j > 0 {
          assert worker(urls[1..][j - 1]).WorkError?;
        }
      }
    }
  }

  lemma {:induction false} CountUnknownPositive(visits: seq<Visit>, catalog: map<string, Store>)
    ensures CountUnknown(visits, catalog) > 0 <==> SomeStoreUnknown(visits, catalog)
  {
    if visits != [] {
      CountUnknownPositive(visits[1..], catalog);
      if SomeStoreUnknown(visits[1..], catalog) {
        var i :| 0 <= i < |visits[1..]| && visits[1..][i].storeId !in catalog;
        assert visits[i + 1].storeId !in catalog;
      }
      if SomeStoreUnknown(visits, catalog) {
        var i :| 0 <= i < |visits| && visits[i].storeId !in catalog;
        if i > 0 {
          assert visits[1..][i - 1].storeId !in catalog;
        }
      }
    }
  }

  lemma {:induction false} CountImageFailuresPositive(
    visits: seq<Visit>, catalog: map<string, Store>, worker: ImageWorker)
    ensures CountImageFailures(visits, catalog, worker) > 0 <==> SomeImageFailed(visits, catalog, worker)
  {
    if visits != [] {
      CountImageFailuresPositive(visits[1..], catalog, worker);
      CountFailuresPositive(visits[0].imageUrls, worker);
      if SomeImageFailed(visits[1..], catalog, worker) {
        var i, j :| 0 <= i < |visits[1..]| && visits[1..][i].storeId in catalog &&
          0 <= j < |visits[1..][i].imageUrls| && worker(visits[1..][i].imageUrls[j]).WorkError?;
        assert worker(visits[i + 1].imageUrls[j]).WorkError?;
      }
      if visits[0].storeId in catalog && CountFailures(visits[0].imageUrls, worker) > 0 {
        var j :| 0 <= j < |visits[0].imageUrls| && worker(visits[0].imageUrls[j]).WorkError?;
        assert worker(visits[0].imageUrls[j]).WorkError?;
      }
      if SomeImageFailed(visits, catalog, worker) {
        var i, j :| 0 <= i < |visits| && visits[i].storeId in catalog &&
          0 <= j < |visits[i].imageUrls| && worker(visits[i].imageUrls[j]).WorkError?;
        if i > 0 {
          assert worker(visits[1..][i - 1].imageUrls[j]).WorkError?;
        }
      }
    }
  }

  /**
   * A run records at least one error exactly when some visit names an unknown
   * store or the worker fails on some image of a known-store visit.
   */
  lemma RunErrorsNonEmpty(visits: seq<Visit>, catalog: map<string, Store>, worker: ImageWorker)
    ensures RunErrors(visits, catalog, worker) != []
        <==> SomeStoreUnknown(visits, catalog) || SomeImageFailed(visits, catalog, worker)
  {
    RunErrorsCount(visits, catalog, worker);
    CountUnknownPositive(visits, catalog);
    CountImageFailuresPositive(visits, catalog, worker);
  }

  /**
   * A visit after the run: a known store gets its result slots, an unknown
   * store leaves the visit as it was.
   */
  function ProcessedVisit(v: Visit, catalog: map<string, Store>, worker: ImageWorker): (r: Visit)
    ensures r.storeId == v.storeId && r.imageUrls == v.imageUrls && r.visitTime == v.visitTime
    ensures v.storeId !in catalog ==> r == v
    ensures v.storeId in catalog ==> |r.results| == |v.imageUrls|
  {
    if v.storeId in catalog then v.(results := ImageResults(v.imageUrls, worker)) else v
  }

  /**
   * `after` is what a run of `before` against `catalog` and `worker`, finished
   * at `now`, commits: every visit processed, the run's errors appended (in
   * some order), status failed exactly when an error was recorded, and the
   * completion time set.
   */
  ghost predicate IsRunOutcome(before: Job, after: Job, catalog: map<string, Store>, worker: ImageWorker, now: Timestamp) {
    var recorded := RunErrors(before.visits, catalog, worker);
    && after.id == before.id
    && after.visitCount == before.visitCount
    && after.createdAt == before.createdAt
    && |after.visits| == |before.visits|
    && (forall i :: 0 <= i < |before.visits| ==>
          after.visits[i] == ProcessedVisit(before.visits[i], catalog, worker))
    && |before.errors| <= |after.errors|
    && after.errors[..|before.errors|] == before.errors
    && multiset(after.errors[|before.errors|..]) == multiset(recorded)
    && after.status == (if recorded != [] then Failed else Completed)
    && after.completedAt == Some(now)
  }

  /**
   * After a run, the job holds one more error per unknown-store visit and per
   * failed image of a known-store visit, and nothing else.
   */
  lemma RunOutcomeErrorCount(
    before: Job, after: Job, catalog: map<string, Store>, worker: ImageWorker, now: Timestamp)
    requires IsRunOutcome(before, after, catalog, worker, now)
    ensures |after.errors| == |before.errors|
      + CountUnknown(before.visits, catalog) + CountImageFailures(before.visits, catalog, worker)
  {
    RunErrorsCount(before.visits, catalog, worker);
    assert |multiset(after.errors)| == |multiset(before.errors)| + |multiset(RunErrors(before.visits, catalog, worker))|;
  }

  /**
   * A run ends in a terminal status, and it is failed exactly when a store was
   * unknown or an image failed.
   */
  lemma RunOutcomeStatus(
    before: Job, after: Job, catalog: map<string, Store>, worker: ImageWorker, now: Timestamp)
    requires IsRunOutcome(before, after, catalog, worker, now)
    ensures after.status.IsTerminal()
    ensures after.status == Failed
        <==> SomeStoreUnknown(before.visits, catalog) || SomeImageFailed(before.visits, catalog, worker)
  {
    RunErrorsNonEmpty(before.visits, catalog, worker);
  }

  /**
   * After a run, each visit with an unknown store still has its results as
   * submitted and its "store not found" error is among the job's errors; each
   * visit with a known store has one slot per URL, the URL in it, processed
   * exactly when the worker succeeded and carrying the worker's message
   * otherwise.
   */
  lemma RunOutcomeVisit(
    before: Job, after: Job, catalog: map<string, Store>, worker: ImageWorker, now: Timestamp, i: nat)
    requires IsRunOutcome(before, after, catalog, worker, now)
    requires i < |before.visits|
    ensures var v, w := before.visits[i], after.visits[i];
      && w.storeId == v.storeId && w.imageUrls == v.imageUrls && w.visitTime == v.visitTime
      && (v.storeId !in catalog ==>
            w.results == v.results && JobError(v.storeId, StoreNotFoundMessage) in after.errors)
      && (v.storeId in catalog ==>
            |w.results| == |v.imageUrls|
            && forall j :: 0 <= j < |v.imageUrls| ==>
                 && w.results[j].url == v.imageUrls[j]
                 && (w.results[j].processed <==> worker(v.imageUrls[j]).Measured?)
                 && (worker(v.imageUrls[j]).WorkError? ==> w.results[j].error == worker(v.imageUrls[j]).message))
      && (v.storeId in catalog ==>
            forall j :: 0 <= j < |v.imageUrls| && worker(v.imageUrls[j]).WorkError? ==>
              JobError(v.storeId, ImageFailureMessage(v.imageUrls[j], worker(v.imageUrls[j]).message)) in after.errors)
  {
    var v := before.visits[i];
    RunErrorsContainVisitErrors(before.visits, catalog, worker, i);
    if v.storeId in catalog {
      forall j | 0 <= j < |v.imageUrls| && worker(v.imageUrls[j]).WorkError?
        ensures JobError(v.storeId, ImageFailureMessage(v.imageUrls[j], worker(v.imageUrls[j]).message)) in after.errors
      {
        ImageErrorsContain(v.storeId, v.imageUrls, worker, j);
        RecordedErrorCommitted(before, after, catalog, worker, now,
          JobError(v.storeId, ImageFailureMessage(v.imageUrls[j], worker(v.imageUrls[j]).message)));
      }
    } else {
      RecordedErrorCommitted(before, after, catalog, worker, now, JobError(v.storeId, StoreNotFoundMessage));
    }
  }

  /** Every error the run records is among the errors the job ends with. */
  lemma RecordedErrorCommitted(
    before: Job, after: Job, catalog: map<string, Store>, worker: ImageWorker, now: Timestamp, e: JobError)
    requires IsRunOutcome(before, after, catalog, worker, now)
    requires e in RunErrors(before.visits, catalog, worker)
    ensures e in after.errors
  {
    InPermutedSuffix(after.errors, |before.errors|, RunErrors(before.visits, catalog, worker), e);
  }

  /**
   * An element of `r` is in any sequence whose tail from `k` is a permutation
   * of `r`. A proof aid for RecordedErrorCommitted, over an arbitrary element
   * type so that using it never unfolds the run's functions.
   */
  lemma InPermutedSuffix<T>(s: seq<T>, k: nat, r: seq<T>, e: T)
    requires k <= |s| && multiset(s[k..]) == multiset(r) && e in r
    ensures e in s
  {
    assert e in multiset(s[k..]);
    assert s == s[..k] + s[k..];
  }

  /** Every error of visit `i` is among the errors of the whole run. */
  lemma {:induction false} RunErrorsContainVisitErrors(
    visits: seq<Visit>, catalog: map<string, Store>, worker: ImageWorker, i: nat)
    requires i < |visits|
    ensures forall e :: e in VisitErrors(visits[i], catalog, worker) ==> e in RunErrors(visits, catalog, worker)
  {
    var n := |visits| - 1;
    var earlier := RunErrors(visits[..n], catalog, worker);
    assert RunErrors(visits, catalog, worker) == earlier + VisitErrors(visits[n], catalog, worker);
    if i < n {
      RunErrorsContainVisitErrors(visits[..n], catalog, worker, i);
      assert visits[..n][i] == visits[i];
    }
  }

  /**
   * The status view of a job: its status and id, and its errors only when it
   * has failed.
   */
  function StatusOf(job: Job): (r: JobStatusResponse)
    ensures r.status == job.status && r.jobId == job.id
    ensures job.status == Failed ==> r.errors == job.errors
    ensures job.status != Failed ==> r.errors == []
  {
    JobStatusResponse(job.status, job.id, if job.status == Failed then job.errors else [])
  }

  /**
   * The status view after a run: no errors when the job completed; when it
   * failed, the errors the job had before the run followed by the run's own
   * errors (in some order).
   */
  lemma RunOutcomeStatusView(
    before: Job, after: Job, catalog: map<string, Store>, worker: ImageWorker, now: Timestamp)
    requires IsRunOutcome(before, after, catalog, worker, now)
    ensures StatusOf(after).status == after.status
    ensures StatusOf(after).errors == [] <==> after.status == Completed
    ensures after.status == Failed ==>
      && StatusOf(after).errors[..|before.errors|] == before.errors
      && multiset(StatusOf(after).errors[|before.errors|..]) == multiset(RunErrors(before.visits, catalog, worker))
  {
    if after.status == Failed {
      assert after.errors[|before.errors|..] != [];
    }
  }

  class JobService {
    const jobRepo: InMemoryJobRepository
    const storeRepo: InMemoryStoreRepository
    const worker: ImageWorker

    constructor (jobRepo: InMemoryJobRepository, storeRepo: InMemoryStoreRepository, worker: ImageWorker)
      ensures this.jobRepo == jobRepo && this.storeRepo == storeRepo && this.worker == worker
    {
      this.jobRepo := jobRepo;
      this.storeRepo := storeRepo;
      this.worker := worker;
    }

    /**
     * Submits a job under the caller-chosen `id` at time `now`. A count that
     * differs from the number of visits is refused and stores nothing;
     * otherwise a pending job is stored and its id returned. Running it is a
     * separate step (ProcessJob).
     */
    method CreateJob(req: JobRequest, id: string, now: Timestamp) returns (r: Result<string>)
      requires jobRepo.Valid()
      modifies jobRepo
      ensures jobRepo.Valid()
      ensures req.count != |req.visits| ==> r == Err(CountMismatch) && jobRepo.jobs == old(jobRepo.jobs)
      ensures req.count == |req.visits| ==>
        && r == Ok(id)
        && jobRepo.jobs == old(jobRepo.jobs)[id := Job(id, Pending, req.count, req.visits, now, None, [])]
    {
      if req.count != |req.visits| {
        return Err(CountMismatch);
      }
      var job := Job(id, Pending, req.count, req.visits, now, None, []);
      var created := jobRepo.Create(job);
      match created
      case Err(cause) =>
        return Err(CreateFailed(cause));
      case Ok(_) =>
        r := Ok(id);
    }

    /** The status view of job `id`, or JobNotFound when no such job is stored. */
    method GetJobStatus(id: string) returns (r: Result<JobStatusResponse>)
      ensures id !in jobRepo.jobs ==> r == Err(JobNotFound)
      ensures id in jobRepo.jobs ==> r == Ok(StatusOf(jobRepo.jobs[id]))
    {
      var found := jobRepo.GetByID(id);
      if found.Err? {
        return Err(found.error);
      }
      r := Ok(StatusOf(found.value));
    }

    /**
     * The start of a run: fetches job `jobId` and commits it as ongoing. A
     * missing job yields None and changes nothing.
     */
    method BeginRun(jobId: string) returns (started: Option<Job>)
      requires jobRepo.Valid()
      modifies jobRepo
      ensures jobRepo.Valid()
      ensures jobId !in old(jobRepo.jobs) ==> started == None && jobRepo.jobs == old(jobRepo.jobs)
      ensures jobId in old(jobRepo.jobs) ==>
        && started == Some(old(jobRepo.jobs)[jobId].(status := Ongoing))
        && started.value.id == jobId
        && jobRepo.jobs == old(jobRepo.jobs)[jobId := started.value]
    {
      var found := jobRepo.GetByID(jobId);
      if found.Err? {
        return None;
      }
      var job := found.value.(status := Ongoing);
      var err := jobRepo.Update(job);
      if err.Some? {
        return None;
      }
      started := Some(job);
    }

    /**
     * The fan-out over the images of a visit whose store `storeId` is known:
     * one slot per URL, each written once from the worker's outcome, and one
     * error per failed image.
     */
    method FanOutImages(storeId: string, urls: seq<string>) returns (results: seq<ImageResult>, errs: seq<JobError>)
      ensures results == ImageResults(urls, worker)
      ensures errs == ImageErrors(storeId, urls, worker)
    {
      var slots := new ImageResult[|urls|](_ => UnwrittenResult);
      errs := [];
      for j := 0 to |urls|
        invariant forall t :: 0 <= t < j ==> slots[t] == SlotFor(urls[t], worker(urls[t]))
        invariant errs == ImageErrors(storeId, urls[..j], worker)
      {
        assert urls[..j + 1][..j] == urls[..j];
        var url := urls[j];
        var result := UnwrittenResult.(url := url);
        match worker(url)
        case WorkError(msg) =>
          result := result.(error := msg);
          slots[j] := result;
          errs := errs + [JobError(storeId, ImageFailureMessage(url, msg))];
        case Measured(p) =>
          result := result.(perimeter := p, processed := true);
          slots[j] := result;
      }
      assert urls[..|urls|] == urls;
      results := slots[..];
    }

    /**
     * One visit of a run: looks its store up; an unknown store records "store
     * not found" and leaves the visit as it was, a known one gets its images
     * fanned out.
     */
    method RunVisit(visit: Visit) returns (processed: Visit, errs: seq<JobError>)
      ensures processed == ProcessedVisit(visit, storeRepo.stores, worker)
      ensures errs == VisitErrors(visit, storeRepo.stores, worker)
    {
      var found := storeRepo.GetByID(visit.storeId);
      if found.Err? {
        return visit, [JobError(visit.storeId, StoreNotFoundMessage)];
      }
      var results;
      results, errs := FanOutImages(visit.storeId, visit.imageUrls);
      processed := visit.(results := results);
    }

    /**
     * The visits loop of a run over `job`, in visit order. Returns the
     * processed visits, the job's errors with the run's appended, and whether
     * any error was recorded.
     */
    method RunVisits(job: Job) returns (visits: seq<Visit>, errors: seq<JobError>, jobFailed: bool)
      ensures |visits| == |job.visits|
      ensures forall i :: 0 <= i < |job.visits| ==> visits[i] == ProcessedVisit(job.visits[i], storeRepo.stores, worker)
      ensures errors == job.errors + RunErrors(job.visits, storeRepo.stores, worker)
      ensures jobFailed <==> RunErrors(job.visits, storeRepo.stores, worker) != []
    {
      ghost var catalog := storeRepo.stores;
      ghost var recorded: seq<JobError> := [];
      visits := job.visits;
      errors := job.errors;
      jobFailed := false;

      for i := 0 to |job.visits|
        invariant storeRepo.stores == catalog
        invariant |visits| == |job.visits|
        invariant forall k :: 0 <= k < i ==> visits[k] == ProcessedVisit(job.visits[k], catalog, worker)
        invariant forall k :: i <= k < |visits| ==> visits[k] == job.visits[k]
        invariant recorded == RunErrors(job.visits[..i], catalog, worker)
        invariant errors == job.errors + recorded
        invariant jobFailed <==> |recorded| > 0
      {
        var processed, errs := RunVisit(job.visits[i]);
        RunErrorsStep(job.visits, i, catalog, worker);
        visits := visits[i := processed];
        AppendAssoc(job.errors, recorded, errs);
        errors := errors + errs;
        recorded := recorded + errs;
        jobFailed := jobFailed || |errs| > 0;
      }
      assert job.visits[..|job.visits|] == job.visits;
      assert storeRepo.stores == catalog;
    }

    /**
     * Runs job `jobId` to completion at time `now`. A job that is not stored
     * is left alone; otherwise the stored job is replaced by the outcome of
     * the run, and no other job changes.
     */
    method ProcessJob(jobId: string, now: Timestamp)
      requires jobRepo.Valid()
      modifies jobRepo
      ensures jobRepo.Valid()
      ensures jobId !in old(jobRepo.jobs) ==> jobRepo.jobs == old(jobRepo.jobs)
      ensures jobId in old(jobRepo.jobs) ==>
        && jobId in jobRepo.jobs
        && jobRepo.jobs == old(jobRepo.jobs)[jobId := jobRepo.jobs[jobId]]
        && IsRunOutcome(old(jobRepo.jobs)[jobId], jobRepo.jobs[jobId], storeRepo.stores, worker, now)
    {
      var started := BeginRun(jobId);
      if started.None? {
        return;
      }
      var job := started.value;
      var visits, errors, jobFailed := RunVisits(job);
      var status := if jobFailed then Failed else Completed;
      var finished := job.(status := status, visits := visits, errors := errors, completedAt := Some(now));
      var _ := jobRepo.Update(finished);
    }
  }
}
