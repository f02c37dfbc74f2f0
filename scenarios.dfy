/**
 * Clients of the engine: what a caller can conclude from the contracts alone
 * about complete submissions, runs and status queries.
 */
module Scenarios {
  import opened Models
  import opened JobRepository
  import opened StoreRepository
  import opened Service

  /**
   * One visit to a store missing from the catalog, with two images: the job
   * fails with exactly one "store not found" error and the visit gets no
   * results.
   */
  method UnknownStoreRun(worker: ImageWorker)
  {
    var jobs := new InMemoryJobRepository();
    var stores := new InMemoryStoreRepository();
    var service := new JobService(jobs, stores, worker);
    var visit := Visit("S1", ["a.jpg", "b.jpg"], "t0", []);
    var created := service.CreateJob(JobRequest(1, [visit]), "job-1", 100);
    assert created == Ok("job-1");

    var before := jobs.jobs["job-1"];
    service.ProcessJob("job-1", 200);
    var after := jobs.jobs["job-1"];
    UnknownStoreOutcome(before, after, stores.stores, worker);

    var status := service.GetJobStatus("job-1");
    assert status == Ok(JobStatusResponse(Failed, "job-1", [JobError("S1", StoreNotFoundMessage)]));
  }

  /**
   * What the run of UnknownStoreRun commits, derived from IsRunOutcome and the
   * run's specification functions.
   */
  lemma UnknownStoreOutcome(before: Job, after: Job, catalog: map<string, Store>, worker: ImageWorker)
    requires before.visits == [Visit("S1", ["a.jpg", "b.jpg"], "t0", [])] && before.errors == []
    requires "S1" !in catalog
    requires IsRunOutcome(before, after, catalog, worker, 200)
    ensures after.status == Failed && after.visits[0].results == []
    ensures after.errors == [JobError("S1", StoreNotFoundMessage)]
  {
    assert RunErrors(before.visits, catalog, worker) == [JobError("S1", StoreNotFoundMessage)];
    RunOutcomeVisit(before, after, catalog, worker, 200, 0);
    RunOutcomeErrorCount(before, after, catalog, worker, 200);
    assert |after.errors| == 1 && JobError("S1", StoreNotFoundMessage) in after.errors;
    assert after.errors[0] == JobError("S1", StoreNotFoundMessage);
  }

  /**
   * One visit to a catalogued store with two images, the first processed and
   * the second failing: the job fails with one error, slot 0 is processed and
   * slot 1 carries the worker's message.
   */
  method OneImageFailsRun()
  {
    var jobs := new InMemoryJobRepository();
    var stores := new InMemoryStoreRepository();
    var loaded := stores.LoadStores(Ok([Store("S1", "Corner shop", "560001")]));
    var worker: ImageWorker := url => if url == "a.jpg" then Measured(40.0) else WorkError("timeout");
    var service := new JobService(jobs, stores, worker);
    var visit := Visit("S1", ["a.jpg", "b.jpg"], "t0", []);
    var created := service.CreateJob(JobRequest(1, [visit]), "job-2", 100);

    var before := jobs.jobs["job-2"];
    service.ProcessJob("job-2", 200);
    var after := jobs.jobs["job-2"];
    assert "S1" in stores.stores;
    OneImageFailsOutcome(before, after, stores.stores, worker);
    assert after.status == Failed && |after.errors| == 1;
  }

  /**
   * What the run of OneImageFailsRun commits, derived from IsRunOutcome and the
   * run's specification functions.
   */
  lemma OneImageFailsOutcome(before: Job, after: Job, catalog: map<string, Store>, worker: ImageWorker)
    requires before.visits == [Visit("S1", ["a.jpg", "b.jpg"], "t0", [])] && before.errors == []
    requires "S1" in catalog && worker("a.jpg") == Measured(40.0) && worker("b.jpg") == WorkError("timeout")
    requires IsRunOutcome(before, after, catalog, worker, 200)
    ensures after.status == Failed && |after.errors| == 1
    ensures |after.visits[0].results| == 2 && after.visits[0].results[0].processed
    ensures !after.visits[0].results[1].processed && after.visits[0].results[1].error == "timeout"
  {
    var visit := before.visits[0];
    RunOutcomeVisit(before, after, catalog, worker, 200, 0);
    RunOutcomeStatus(before, after, catalog, worker, 200);
    assert worker(visit.imageUrls[1]).WorkError?;
    assert SomeImageFailed(before.visits, catalog, worker);
    assert CountFailures(["a.jpg", "b.jpg"], worker) == 1;
    assert CountImageFailures([visit], catalog, worker) == 1;
    RunOutcomeErrorCount(before, after, catalog, worker, 200);
  }

  /**
   * A store file that cannot be decoded: the failure is passed on, the catalog
   * stays empty, and every store lookup then fails.
   */
  method FailedLoadRun()
  {
    var stores := new InMemoryStoreRepository();
    var err := stores.LoadStores(Err(LoadFailed("invalid character in store file")));
    assert err == Some(LoadFailed("invalid character in store file"));
    var found := stores.GetByID("S1");
    assert found == Err(StoreNotFound);
  }
}
