/**
 * The records of the job-execution service (backend/internal/models/job.go and
 * backend/internal/models/store.go), and the error values the service and its
 * repositories return.
 */
module Models {

  /** A point in time; the service only stores timestamps, it never compares them. */
  type Timestamp = int

  /** Lifecycle of a job: pending -> ongoing -> completed | failed. */
  datatype JobStatus = Pending | Ongoing | Completed | Failed {
    /** The two statuses after which the engine never touches a job again. */
    predicate IsTerminal() {
      Completed? || Failed?
    }
  }

  /**
   * Outcome of one image. The perimeter is meaningful only when `processed`
   * holds; `error` is empty unless the image failed.
   */
  datatype ImageResult = ImageResult(url: string, perimeter: real, processed: bool, error: string)

  /** The zero value a fresh slot holds before its image is processed. */
  const UnwrittenResult := ImageResult("", 0.0, false, "")

  /** One store-scoped group of images; `results` is filled by the engine. */
  datatype Visit = Visit(storeId: string, imageUrls: seq<string>, visitTime: string, results: seq<ImageResult>)

  /** One failure recorded against a job, with the store it came from. */
  datatype JobError = JobError(storeId: string, error: string)

  datatype Job = Job(
    id: string,
    status: JobStatus,
    visitCount: int,
    visits: seq<Visit>,
    createdAt: Timestamp,
    completedAt: Option<Timestamp>,
    errors: seq<JobError>)

  /** A submission: the announced number of visits and the visits themselves. */
  datatype JobRequest = JobRequest(count: int, visits: seq<Visit>)

  /** What a status query returns; `errors` is empty unless the job failed. */
  datatype JobStatusResponse = JobStatusResponse(status: JobStatus, jobId: string, errors: seq<JobError>)

  /** An entry of the store catalog. */
  datatype Store = Store(storeId: string, storeName: string, areaCode: string)

  /** The errors the service and its repositories return. */
  datatype Error =
    | CountMismatch            // the request's count differs from its number of visits
    | JobNotFound              // no job is stored under the id
    | StoreNotFound            // no store is catalogued under the id
    | CreateFailed(cause: Error)  // the job repository refused a new job
    | LoadFailed(reason: string)  // the store file could not be opened or decoded

  datatype Option<+T> = None | Some(value: T)

  datatype Result<+T> = Ok(value: T) | Err(error: Error)
}
