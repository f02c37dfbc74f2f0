# Job-execution engine of the store-visit image service

The service takes jobs. A job is a list of store visits, and each visit names a
store and a list of image URLs. A job is stored as *pending* and then run. The
run marks the job *ongoing* and looks up each visit's store in the store
catalog. A visit to an unknown store records a "store not found" error. For a
known store, every image goes to the image worker, which yields a perimeter or
an error, and the result goes into that image's slot. A worker failure is also
recorded against the job. When every visit has been handled, the job is
*failed* if any error was recorded and *completed* otherwise. It gets a
completion time and is written back. A status query returns the status and id
of a job, plus its errors when it has failed.

The model has four modules:

- `Models` (`models.dfy`): the records (job, visit, image result, job error,
  store, request, status response) and the error values.
- `JobRepository` (`job_repository.dfy`): the in-memory job table. It is a
  class whose `jobs` map is updated by `Create` and `Update`.
- `StoreRepository` (`store_repository.dfy`): the in-memory store catalog.
  It is a class whose `stores` map is filled by `LoadStores`. That loop is
  specified by the function `InsertAll`.
- `Service` (`job_service.dfy`): the engine. The `JobService` class holds the
  two repositories and the image worker. Its methods are:
  - `CreateJob` and `GetJobStatus`;
  - the run, split into `BeginRun`, `RunVisits`, `RunVisit`, `FanOutImages`
    and `ProcessJob`.

  The methods are proved against specification functions (`ImageResults`,
  `ImageErrors`, `VisitErrors`, `RunErrors`, `ProcessedVisit`, `StatusOf`).
  The predicate `IsRunOutcome` states what a finished run commits. The lemmas
  state what it implies: error counts, the final status, per-visit results,
  and the status view.

`Scenarios` (`scenarios.dfy`) has three clients. Two of them come with a
lemma that derives the outcome of an example run from `IsRunOutcome` and the
run's specification functions:

- an unknown store with two images: failed, one error, no results;
- a known store whose second image fails: failed, one error, slot 0
  processed, slot 1 carrying the worker's message.

The third loads a store file that cannot be decoded. The failure is passed on
and the catalog stays empty.

The run in the source starts one goroutine per image and waits for all of
them. Each goroutine writes only its own result slot, so scheduling can
change only the order in which the run's errors are appended. The errors the
job already had are never reordered. The model runs the images and visits in
order. Its promises about a finished run's errors keep the job's earlier
errors as a prefix, and state the run's own errors up to order, as multisets
and counts. The helper methods themselves produce
the errors in visit and URL order.

Two behaviours of the engine are worth noting:

- The HTTP handler is stricter than the engine. `CreateJob` refuses only a
  count that differs from the number of visits, so it accepts a count of zero
  together with an empty visit list. The handler additionally demands a
  positive count and at least one visit (backend/internal/api/handlers.go:39,
  which is not part of this model).
- Running a job does not check that the job is pending. Running a job twice
  appends the second run's errors to the first run's.

## Model

| member | source | states |
|---|---|---|
| JobRepository.InMemoryJobRepository.constructor | backend/internal/repository/job_repository.go:26-30 | A new job table is empty. |
| JobRepository.InMemoryJobRepository.Create | backend/internal/repository/job_repository.go:32-37 | Creating a job files it under its id, replacing any record with that id. It always succeeds and returns the id. The table keeps the invariant that every record is filed under its own id. |
| JobRepository.InMemoryJobRepository.GetByID | backend/internal/repository/job_repository.go:39-47 | Returns the stored record when the id is present and JobNotFound when it is absent. The table is only read. |
| JobRepository.InMemoryJobRepository.Update | backend/internal/repository/job_repository.go:49-57 | An absent id yields JobNotFound and changes nothing. A present id has its record replaced. No key is added or removed, and every other record is unchanged. |
| StoreRepository.InMemoryStoreRepository.constructor | backend/internal/repository/store_repository.go:27-31 | A new catalog is empty. |
| StoreRepository.InMemoryStoreRepository.GetByID | backend/internal/repository/store_repository.go:33-41 | Returns the catalogued store when the id is present and StoreNotFound when it is absent. The catalog is only read. |
| StoreRepository.InMemoryStoreRepository.LoadStores | backend/internal/repository/store_repository.go:43-62 | An open or decode failure is returned and leaves the catalog unchanged. Otherwise the catalog becomes `InsertAll` of the old catalog and the decoded list, and no error is returned. |
| StoreRepository.InsertAll | backend/internal/repository/store_repository.go:58-60 | After loading, the catalog's ids are exactly the old ids plus every listed id. Loading never removes a store. |
| StoreRepository.InsertAllLastWins | backend/internal/repository/store_repository.go:58-60 | A listed store with no later entry under the same id is catalogued under its id. Of several entries with one id, the last one wins. |
| StoreRepository.InsertAllKeepsUnlisted | backend/internal/repository/store_repository.go:58-60 | An id the list does not mention is catalogued afterwards exactly when it was before, with the same store. |
| Service.JobService.constructor | backend/internal/service/job_service.go:26-36 | The service holds the given job table, store catalog and image worker. |
| Service.JobService.CreateJob | backend/internal/service/job_service.go:38-63 | A count that differs from the number of visits yields CountMismatch and stores nothing. Otherwise it returns the new id and stores, under that id, a pending job with the request's count and visits, the creation time, no completion time and no errors. Nothing else changes. |
| Service.JobService.GetJobStatus | backend/internal/service/job_service.go:65-81 | An unknown id yields JobNotFound. Otherwise it returns the job's status view (see StatusOf). |
| Service.StatusOf | backend/internal/service/job_service.go:71-78 | The view carries the job's status and id. It lists the job's errors when the job has failed, and no errors otherwise. |
| Service.RunOutcomeStatusView | backend/internal/service/job_service.go:71-78 | After a run, the status view lists no errors exactly when the job completed. When the job failed, the view lists the errors the job had before the run, in their order, followed by exactly the run's errors, up to order. |
| Service.JobService.BeginRun | backend/internal/service/job_service.go:84-93 | A missing job yields nothing and changes nothing. Otherwise the job is committed as ongoing, with nothing else changed, and the ongoing job is returned. |
| Service.ImageResults | backend/internal/service/job_service.go:113-147 | A known-store visit gets one result slot per image URL, in URL order. Each slot holds its URL. A slot is processed exactly when the worker succeeded on its URL. A processed slot holds the perimeter and no error. A failed slot holds the worker's message. |
| Service.ImageErrors | backend/internal/service/job_service.go:127-137 | Every error a known-store visit's images contribute is tagged with that visit's store. |
| Service.ImageErrorsContain | backend/internal/service/job_service.go:127-137 | Every URL the worker fails on contributes the error "failed to process image <url>: <message>", tagged with the visit's store. |
| Service.ImageErrorsCount | backend/internal/service/job_service.go:127-137 | A known-store visit contributes exactly one error per image the worker fails on. |
| Service.JobService.FanOutImages | backend/internal/service/job_service.go:113-148 | The fan-out fills each slot from the worker's outcome for its URL. The slots equal `ImageResults` and the errors equal `ImageErrors`. |
| Service.VisitErrors | backend/internal/service/job_service.go:101-111 | A visit to an unknown store contributes exactly one "store not found" error tagged with its store. |
| Service.KnownStoreVisitErrors | backend/internal/service/job_service.go:117-137 | A visit to a known store contributes one error per failed image, each tagged with the visit's store. |
| Service.JobService.RunVisit | backend/internal/service/job_service.go:100-148 | A visit is handled by looking up its store. An unknown store leaves the visit as submitted and records one error. A known store gets its images fanned out. The result equals `ProcessedVisit` and `VisitErrors`. |
| Service.JobService.RunVisits | backend/internal/service/job_service.go:95-151 | Every visit is handled and there are as many visits as before. The job's errors become the old errors followed by the run's errors. The failed flag is set exactly when the run recorded an error. |
| Service.ImageFailureMessage | backend/internal/service/job_service.go:135 | The message recorded against a job for a failed image: "failed to process image ", the URL, ": " and the worker's message. |
| Service.SlotFor | backend/internal/service/job_service.go:122-145 | The slot written for one image holds its URL. It is processed exactly when the worker measured the image. It holds the perimeter and no error on success, and the worker's message on failure. |
| Service.ProcessedVisit | backend/internal/service/job_service.go:100-114 | A visit after the run keeps its store, URLs and visit time. An unknown-store visit is left as submitted. A known-store visit gets one slot per URL (see ImageResults). |
| Service.RunErrors | backend/internal/service/job_service.go:100-149 | The errors a run records, in the order the sequential model produces them (visit order, then URL order; the source's goroutines may append them in any order): each visit's `VisitErrors`. Its properties are stated by RunErrorsTagged, RunErrorsCount, RunErrorsNonEmpty and RunErrorsContainVisitErrors. |
| Service.RunErrorsTagged | backend/internal/service/job_service.go:102-137 | Every error a run records is tagged with the store of one of the job's visits. |
| Service.IsRunOutcome | backend/internal/service/job_service.go:83-164 | The job a run commits: the same id, count and creation time; every visit replaced by its `ProcessedVisit`; the errors the job already had, in their order, followed by the run's errors in some order; failed exactly when the run recorded an error and completed otherwise; and the completion time set. |
| Service.RunErrorsCount | backend/internal/service/job_service.go:100-149 | A run records exactly one error per unknown-store visit plus one per failed image of a known-store visit. |
| Service.RunErrorsNonEmpty | backend/internal/service/job_service.go:100-149 | A run records an error exactly when some visit's store is unknown or the worker fails on some image of a known-store visit. |
| Service.RunErrorsContainVisitErrors | backend/internal/service/job_service.go:100-111 | Every error one visit contributes is among the run's errors. |
| Service.JobService.ProcessJob | backend/internal/service/job_service.go:83-165 | A job that is not stored is left alone. Otherwise only that job's record is replaced, by the outcome of the run (`IsRunOutcome`): the same id, count and creation time; every visit handled; the job's earlier errors kept in order, with the run's errors after them; failed exactly when the run recorded an error, completed otherwise; and the completion time set. |
| Service.RunOutcomeErrorCount | backend/internal/service/job_service.go:100-149 | After a run, the job holds its old errors plus exactly one per unknown-store visit and one per failed image. |
| Service.RunOutcomeStatus | backend/internal/service/job_service.go:153-158 | A run always ends in a terminal status. It is failed exactly when a store was unknown or an image failed. |
| Service.RunOutcomeVisit | backend/internal/service/job_service.go:100-147 | After a run, every visit keeps its store, URLs and visit time. An unknown-store visit keeps its results as submitted, and its "store not found" error is among the job's errors. A known-store visit has one slot per URL, holding the URL. Each slot is processed exactly when the worker succeeded and otherwise carries the worker's message. For each failed image, the error "failed to process image <url>: <message>", tagged with the visit's store, is among the job's errors. |
| Service.RecordedErrorCommitted | backend/internal/service/job_service.go:100-164 | Every error the run records is among the errors of the job it commits. |
| Scenarios.UnknownStoreOutcome | backend/internal/service/job_service.go:100-158 | A one-visit job whose store is unknown, run from no errors, ends failed with exactly one "store not found" error and with the visit's results as submitted. |
| Scenarios.OneImageFailsOutcome | backend/internal/service/job_service.go:100-158 | A one-visit job to a known store, whose first image is measured and second fails, ends failed with exactly one error. Slot 0 is processed and slot 1 carries the worker's message. |

## Left out

- Goroutines, the wait group and the mutexes of the run. Visits and images run in order. Properties of the errors are stated up to order, because the source's append order depends on scheduling.
- The repositories' read/write locks. They only order concurrent callers.
- The image processor (HTTP download, image decoding, the random sleep, the floating-point perimeter) is not part of this model. It is an oracle `worker` from URL to outcome, so one URL always gets the same outcome. The perimeter is an uninterpreted `real`.
- Job ids generated from the clock, and the clock itself. `CreateJob` takes the id and the creation time as parameters, and `ProcessJob` takes the completion time. As in the source, a repeated id silently replaces the stored job.
- `go s.processJob(jobID)` at the end of CreateJob. Here `CreateJob` only stores the job, and the caller runs `ProcessJob` as a separate step. Interleavings of a run with other submissions or queries are not modelled.
- Go slice aliasing. In the source, the job stored by the first Update shares its visits array with the copy the run writes into, so stored results can be seen before the final Update. Here values are copied, so the stored job changes only at the two Updates.
- The outcome of the final Update in ProcessJob is ignored, as in the source. With the in-memory table it cannot fail. The failure branch of the first Update is modelled but unreachable for the same reason.
- The `CreateFailed` branch of CreateJob is modelled but unreachable, because the in-memory job table never refuses a job.
- Opening and JSON-decoding the store file in LoadStoresFromFile. `LoadStores` receives the decoded list, or the failure that replaced it.
- The HTTP handlers, routes, configuration and main program (backend/internal/api, backend/config, backend/cmd) are not part of this model.
- The wrapping of error messages (`fmt.Errorf` with `%w`) is modelled as the error value `CreateFailed(cause)`. The count-mismatch message is modelled as `CountMismatch`.
- Service.JobService.ProcessJob: it states the run's own errors only up to order (`IsRunOutcome` compares the part after the earlier errors as a multiset), because the source's append order depends on goroutine scheduling.
- Service.RunOutcomeStatusView: it states the run's errors in the view up to order, for the same reason.
