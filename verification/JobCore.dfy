/**
 A background job and the in-memory store of job snapshots (job/core/job.go, job/memory/job_store.go).

 Each method of Job runs under the job's own lock, so it is one atomic change of `JobView`. Times,
 result types and the command itself are not part of this model.
 */
module JobCore {
  import opened Wrappers

  datatype Status = Pending | Running | Completed | Failed | Cancelled

  datatype JobView<R> = JobView(
    status: Status, result: Option<R>, error: string, retryCount: int, maxRetries: int)

  /** What the command bus returns for one execution. */
  datatype CommandResult<R> = Ok(result: R) | Err(message: string)

  function Submitted<R>(maxRetries: int): JobView<R> {
    JobView(Pending, None, "", 0, maxRetries)
  }

  function Started<R>(j: JobView<R>): JobView<R> {
    j.(status := Running)
  }

  function Complete<R>(j: JobView<R>, result: R): (JobView<R>, bool) {
    if j.status == Cancelled || j.status == Pending then (j, false)
    else (j.(status := Completed, result := Some(result)), true)
  }

  datatype FailOutcome<R> = FailOutcome(job: JobView<R>, cancelled: bool, shouldRetry: bool)

  function Fail<R>(j: JobView<R>, message: string): FailOutcome<R> {
    if j.status == Cancelled || j.status == Pending then FailOutcome(j, j.status == Cancelled, false)
    else
      var failed := j.(status := Failed, error := message);
      if j.retryCount < j.maxRetries then FailOutcome(failed.(retryCount := j.retryCount + 1), false, true)
      else FailOutcome(failed, false, false)
  }

  function Cancel<R>(j: JobView<R>): (JobView<R>, bool) {
    if j.status == Completed || j.status == Cancelled then (j, false)
    else (j.(status := Cancelled), true)
  }

  function Reset<R>(j: JobView<R>): (JobView<R>, bool) {
    if j.status != Failed then (j, false)
    else (j.(status := Pending, error := "", result := None), true)
  }

  predicate Terminal(s: Status) {
    s == Completed || s == Failed || s == Cancelled
  }

  // ---------------------------------------------------------------- the job object

  /** A channel that only ever gets closed. */
  class Signal {
    var closed: bool

    constructor (closed: bool)
      ensures this.closed == closed
    {
      this.closed := closed;
    }
  }

  class Job<R> {
    const id: string
    var status: Status
    var result: Option<R>
    var error: string
    var retryCount: int
    var maxRetries: int
    var done: Signal?

    constructor (id: string, maxRetries: int)
      ensures this.id == id && View() == Submitted(maxRetries) && done == null
      ensures status == Pending && result == None && error == "" && retryCount == 0
    {
      this.id := id;
      this.maxRetries := maxRetries;
      status, result, error, retryCount, done := Pending, None, "", 0, null;
    }

    constructor Copy(from: Job<R>)
      ensures id == from.id && View() == from.View()
      ensures done != null && fresh(done)
      ensures done.closed <==> from.status == Completed || from.status == Failed || from.status == Cancelled
    {
      id := from.id;
      status, result, error := from.status, from.result, from.error;
      retryCount, maxRetries := from.retryCount, from.maxRetries;
      done := new Signal(Terminal(from.status));
    }

    ghost function View(): JobView<R>
      reads this
    {
      JobView(status, result, error, retryCount, maxRetries)
    }

    method MarkRunning()
      modifies this`status
      ensures status == Running
      ensures View() == Started(old(View()))
    {
      status := Running;
    }

    method TryComplete(result: R) returns (ok: bool)
      modifies this`status, this`result
      ensures (View(), ok) == Complete(old(View()), result)
      ensures ok <==> old(status) == Running || old(status) == Failed || old(status) == Completed
      ensures if ok then status == Completed && this.result == Some(result) else View() == old(View())
    {
      if status == Cancelled || status == Pending { return false; }
      status := Completed;
      this.result := Some(result);
      ok := true;
    }

    method TryFail(message: string) returns (cancelled: bool, shouldRetry: bool)
      modifies this`status, this`error, this`retryCount
      ensures FailOutcome(View(), cancelled, shouldRetry) == Fail(old(View()), message)
      ensures cancelled <==> old(status) == Cancelled
      ensures old(status) == Cancelled || old(status) == Pending ==> View() == old(View()) && !shouldRetry
      ensures old(status) != Cancelled && old(status) != Pending ==>
                && status == Failed && error == message
                && (shouldRetry <==> old(retryCount) < maxRetries)
                && retryCount == old(retryCount) + if shouldRetry then 1 else 0
    {
      if status == Cancelled || status == Pending { return status == Cancelled, false; }
      status := Failed;
      error := message;
      if retryCount < maxRetries {
        retryCount := retryCount + 1;
        return false, true;
      }
      return false, false;
    }

    method TryCancel() returns (nil: bool)
      modifies this`status
      ensures (View(), nil) == Cancel(old(View()))
      ensures nil <==> old(status) == Pending || old(status) == Running || old(status) == Failed
      ensures status == if nil then Cancelled else old(status)
    {
      if status == Completed || status == Cancelled { return false; }
      status := Cancelled;
      nil := true;
    }

    method ResetForRetry() returns (nil: bool)
      modifies this`status, this`error, this`result
      ensures (View(), nil) == Reset(old(View()))
      ensures nil <==> old(status) == Failed
      ensures if nil then status == Pending && error == "" && result == None else View() == old(View())
    {
      if status != Failed { return false; }
      status := Pending;
      error := "";
      result := None;
      nil := true;
    }

    /** The channel of the current attempt, made on first use. */
    method Done() returns (signal: Signal)
      modifies this`done
      ensures done == signal
      ensures old(done) != null ==> signal == old(done)
      ensures old(done) == null ==> fresh(signal) && !signal.closed
    {
      if done == null { done := new Signal(false); }
      signal := done;
    }

    method MarkDone()
      modifies this`done, done
      ensures done != null && done.closed
      ensures old(done) != null ==> done == old(done)
      ensures old(done) == null ==> fresh(done)
    {
      if done == null { done := new Signal(false); }
      if !done.closed { done.closed := true; }
    }

    method ResetDone()
      modifies this`done
      ensures done != null && fresh(done) && !done.closed
    {
      done := new Signal(false);
    }

    /** A copy that shares nothing with the job; its channel is closed when the job is at an end. */
    method Snapshot() returns (copy: Job<R>)
      ensures fresh(copy) && copy.id == id && copy.View() == View()
      ensures copy.done != null && fresh(copy.done)
      ensures copy.done.closed <==> status == Completed || status == Failed || status == Cancelled
    {
      copy := new Job.Copy(this);
    }
  }

  // ---------------------------------------------------------------- the store

  class InMemoryJobStore<R> {
    var jobs: map<string, Job<R>>

    constructor ()
      ensures jobs == map[]
    {
      jobs := map[];
    }

    method Create(job: Job<R>) returns (nil: bool)
      modifies this
      ensures nil == (job.id !in old(jobs))
      ensures !nil ==> jobs == old(jobs)
      ensures nil ==> job.id in jobs && jobs == old(jobs)[job.id := jobs[job.id]]
      ensures nil ==> fresh(jobs[job.id]) && jobs[job.id].View() == job.View()
    {
      if job.id in jobs { return false; }
      var copy := job.Snapshot();
      jobs := jobs[job.id := copy];
      nil := true;
    }

    method Get(id: string) returns (copy: Job?<R>)
      ensures copy == null <==> id !in jobs
      ensures copy != null ==> fresh(copy) && copy.id == jobs[id].id && copy.View() == jobs[id].View()
    {
      if id !in jobs { return null; }
      copy := jobs[id].Snapshot();
    }

    method Update(job: Job<R>) returns (nil: bool)
      modifies this
      ensures nil == (job.id in old(jobs))
      ensures !nil ==> jobs == old(jobs)
      ensures nil ==> job.id in jobs && jobs == old(jobs)[job.id := jobs[job.id]]
      ensures nil ==> fresh(jobs[job.id]) && jobs[job.id].View() == job.View()
    {
      if job.id !in jobs { return false; }
      var copy := job.Snapshot();
      jobs := jobs[job.id := copy];
      nil := true;
    }
  }
}
