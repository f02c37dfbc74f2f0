/**
 * The in-memory job table (backend/internal/repository/job_repository.go): a
 * map from job id to job record, with create, fetch and replace. The
 * read/write lock of the source only orders concurrent callers and is not
 * modelled.
 */
module JobRepository {
  import opened Models

  class InMemoryJobRepository {
    var jobs: map<string, Job>

    /** Every record is filed under its own id. */
    ghost predicate Valid()
      reads this
    {
      forall id :: id in jobs ==> jobs[id].id == id
    }

    constructor ()
      ensures Valid() && jobs == map[]
    {
      jobs := map[];
    }

    /** Files `job` under its id, replacing any record already there; never fails. */
    method Create(job: Job) returns (r: Result<string>)
      requires Valid()
      modifies this
      ensures Valid()
      ensures r == Ok(job.id)
      ensures jobs == old(jobs)[job.id := job]
    {
      jobs := jobs[job.id := job];
      r := Ok(job.id);
    }

    /** The record filed under `id`, or JobNotFound; the table is only read. */
    method GetByID(id: string) returns (r: Result<Job>)
      ensures id in jobs ==> r == Ok(jobs[id])
      ensures id !in jobs ==> r == Err(JobNotFound)
    {
      if id !in jobs {
        return Err(JobNotFound);
      }
      r := Ok(jobs[id]);
    }

    /**
     * Replaces the record filed under `job.id`. An id that is not in the table
     * yields JobNotFound and changes nothing; otherwise only that entry changes.
     */
    method Update(job: Job) returns (err: Option<Error>)
      requires Valid()
      modifies this
      ensures Valid()
      ensures job.id !in old(jobs) ==> err == Some(JobNotFound) && jobs == old(jobs)
      ensures job.id in old(jobs) ==> err == None && jobs == old(jobs)[job.id := job]
      ensures jobs.Keys == old(jobs).Keys
      ensures forall id :: id in old(jobs) && id != job.id ==> jobs[id] == old(jobs)[id]
    {
      if job.id !in jobs {
        return Some(JobNotFound);
      }
      jobs := jobs[job.id := job];
      err := None;
    }
  }
}
