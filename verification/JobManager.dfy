/**
 The asynchronous job manager (job/memory/job_manager.go) around one live job: any number of
 executor, Retry and Cancel goroutines, interleaved between atomic steps. A step is one method of
 Job or one store call. An action that is not possible where a goroutine stands changes nothing, so
 every sequence of actions is a schedule.
 */
module JobManager {
  import opened Wrappers
  import opened JobCore

  /** Where an executor stands in executeJob; "Retrying" is the update before `continue`. */
  datatype ExecutorAt = Starting | Marked | Ready | Executing | Retrying | Settled | Closing | Exited

  /** Where a Retry call stands: it waits for a channel, resets the job, reopens, saves, spawns. */
  datatype RetrierAt = Waiting(channel: nat) | Resetting | Reopening | Saving | Spawning | Returned

  /** Where a successful Cancel call stands. */
  datatype CancellerAt = Signalling | Storing | Finished

  datatype Thread = Executor(e: ExecutorAt) | Retrier(r: RetrierAt) | Canceller(c: CancellerAt)

  /**
   `done` and `closed` are the job's current channel and the channels closed so far. The last four
   fields are history: attempts started, Execute calls, executors spawned by Retry, and whether some
   final TryFail, TryComplete or TryCancel has succeeded.
   */
  datatype State<R> = State(
    job: JobView<R>, stored: JobView<R>,
    done: Option<nat>, closed: set<nat>, channels: nat,
    threads: seq<Thread>,
    starts: nat, executes: nat, retries: nat, settled: bool)

  datatype Action<R> =
    | ExecutorStep(t: nat, storeOk: bool)
    | RetrierStep(t: nat, storeOk: bool)
    | CancellerStep(t: nat, storeOk: bool)
    | Finish(t: nat, outcome: CommandResult<R>)
    | GiveUp(t: nat)
    | CallRetry
    | CallCancel

  function AfterSubmit<R>(maxRetries: int): State<R> {
    State(Submitted(maxRetries), Submitted(maxRetries), None, {}, 0, [Executor(Starting)], 0, 0, 0, false)
  }

  function At<R>(s: State<R>, t: nat, th: Thread): State<R>
    requires t < |s.threads|
  {
    s.(threads := s.threads[t := th])
  }

  function Update<R>(s: State<R>, storeOk: bool): State<R> {
    if storeOk then s.(stored := s.job) else s
  }

  /** Job.Done and Job.MarkDone make the channel on first use; Job.ResetDone always makes one. */
  function WithChannel<R>(s: State<R>): State<R> {
    if s.done.Some? then s else s.(done := Some(s.channels), channels := s.channels + 1)
  }

  function MarkDone<R>(s: State<R>): State<R> {
    var made := WithChannel(s);
    made.(closed := made.closed + {made.done.value})
  }

  function StepExecutor<R>(s: State<R>, t: nat, storeOk: bool): State<R>
    requires t < |s.threads| && s.threads[t].Executor?
  {
    match s.threads[t].e
    case Starting => At(s.(job := Started(s.job), starts := s.starts + 1), t, Executor(Marked))
    case Marked => At(Update(s, storeOk), t, Executor(Ready))
    case Ready => At(s.(executes := s.executes + 1), t, Executor(Executing))
    case Executing => s
    case Retrying => At(Update(s, storeOk), t, Executor(Starting))
    case Settled => At(Update(s, storeOk), t, Executor(Closing))
    case Closing => At(MarkDone(s), t, Executor(Exited))
    case Exited => s
  }

  /** The command has returned. */
  function FinishExecutor<R>(s: State<R>, t: nat, outcome: CommandResult<R>): State<R>
    requires t < |s.threads|
  {
    match outcome
    case Ok(result) =>
      var (job, ok) := Complete(s.job, result);
      if ok then At(s.(job := job, settled := true), t, Executor(Settled)) else At(s.(job := job), t, Executor(Closing))
    case Err(message) =>
      var f := Fail(s.job, message);
      if f.cancelled then At(s.(job := f.job), t, Executor(Closing))
      else if f.shouldRetry then At(s.(job := f.job), t, Executor(Retrying))
      else At(s.(job := f.job, settled := s.settled || f.job.status == Failed), t, Executor(Settled))
  }

  function StepRetrier<R>(s: State<R>, t: nat, storeOk: bool): State<R>
    requires t < |s.threads| && s.threads[t].Retrier?
  {
    match s.threads[t].r
    case Waiting(channel) => if channel in s.closed then At(s, t, Retrier(Resetting)) else s
    case Resetting =>
      var (job, ok) := Reset(s.job);
      At(s.(job := job), t, Retrier(if ok then Reopening else Returned))
    case Reopening =>
      At(s.(done := Some(s.channels), channels := s.channels + 1), t, Retrier(Saving))
    case Saving =>
      At(Update(s, storeOk), t, Retrier(if storeOk then Spawning else Returned))
    case Spawning =>
      var spawned := At(s, t, Retrier(Returned));
      spawned.(threads := spawned.threads + [Executor(Starting)], retries := s.retries + 1)
    case Returned => s
  }

  function StepCanceller<R>(s: State<R>, t: nat, storeOk: bool): State<R>
    requires t < |s.threads| && s.threads[t].Canceller?
  {
    match s.threads[t].c
    case Signalling => At(MarkDone(s), t, Canceller(Storing))
    case Storing => At(Update(s, storeOk), t, Canceller(Finished))
    case Finished => s
  }

  function Step<R>(s: State<R>, a: Action<R>): State<R> {
    match a
    case ExecutorStep(t, storeOk) =>
      if t < |s.threads| && s.threads[t].Executor? then StepExecutor(s, t, storeOk) else s
    case RetrierStep(t, storeOk) =>
      if t < |s.threads| && s.threads[t].Retrier? then StepRetrier(s, t, storeOk) else s
    case CancellerStep(t, storeOk) =>
      if t < |s.threads| && s.threads[t].Canceller? then StepCanceller(s, t, storeOk) else s
    case Finish(t, outcome) =>
      if t < |s.threads| && s.threads[t] == Executor(Executing) then FinishExecutor(s, t, outcome) else s
    case GiveUp(t) =>
      if t < |s.threads| && s.threads[t].Retrier? && s.threads[t].r.Waiting? then At(s, t, Retrier(Returned)) else s
    case CallRetry =>
      var s' := WithChannel(s);
      s'.(threads := s'.threads + [Retrier(Waiting(s'.done.value))])
    case CallCancel =>
      var (job, ok) := Cancel(s.job);
      if ok then s.(job := job, settled := true, threads := s.threads + [Canceller(Signalling)]) else s.(job := job)
  }

  function Run<R>(s: State<R>, schedule: seq<Action<R>>): State<R>
    decreases |schedule|
  {
    if schedule == [] then s else Run(Step(s, schedule[0]), schedule[1..])
  }

  lemma {:induction false} RunConcat<R>(s: State<R>, first: seq<Action<R>>, rest: seq<Action<R>>)
    ensures Run(s, first + rest) == Run(Run(s, first), rest)
    decreases |first|
  {
    if first == [] {
      assert first + rest == rest;
    } else {
      assert (first + rest)[1..] == first[1..] + rest;
      RunConcat(Step(s, first[0]), first[1..], rest);
    }
  }

  // ---------------------------------------------------------------- one executor at a time

  /** The goroutine will start an attempt, or spawn an executor that will, whatever the job's status. */
  predicate AttemptAhead(th: Thread) {
    match th
    case Executor(e) => e == Starting || e == Retrying
    case Retrier(r) => r == Reopening || r == Saving || r == Spawning
    case Canceller(_) => false
  }

  /** The executor is inside an attempt: after MarkRunning, before TryFail or TryComplete. */
  predicate InAttempt(th: Thread) {
    th.Executor? && (th.e == Marked || th.e == Ready || th.e == Executing)
  }

  /** Between its spawn and its final TryFail or TryComplete. */
  predicate LiveExecutor(th: Thread) {
    th.Executor? && (AttemptAhead(th) || InAttempt(th))
  }

  predicate Active(th: Thread) {
    AttemptAhead(th) || InAttempt(th)
  }

  /** Standing here, the goroutine has seen the job settled. */
  predicate AfterSettling(th: Thread) {
    match th
    case Executor(e) => e == Settled || e == Closing || e == Exited
    case Retrier(r) => r == Resetting || AttemptAhead(th)
    case Canceller(_) => true
  }

  /** A Cancel that succeeds finds no attempt ahead: the job is running, or failed for good. */
  ghost predicate Timely<R>(s: State<R>, a: Action<R>) {
    a.CallCancel? && Cancel(s.job).1 ==> NoAttemptAhead(s)
  }

  ghost predicate NoAttemptAhead<R>(s: State<R>) {
    forall i | 0 <= i < |s.threads| :: !AttemptAhead(s.threads[i])
  }

  /** A schedule in which every successful Cancel is timely. */
  ghost predicate TimelyRun<R>(s: State<R>, schedule: seq<Action<R>>)
    decreases |schedule|
  {
    schedule == [] || (Timely(s, schedule[0]) && TimelyRun(Step(s, schedule[0]), schedule[1..]))
  }

  /** How an active goroutine and the job's status go together. */
  predicate Fits<R>(s: State<R>, th: Thread) {
    match s.job.status
    case Pending => th == Executor(Starting) || th.Retrier?
    case Running => InAttempt(th)
    case Completed => false
    case Failed => !s.settled && th.Executor? && AttemptAhead(th)
    case Cancelled => InAttempt(th)
  }

  /** The part of the invariant that does not look at goroutines. */
  predicate Consistent<R>(s: State<R>) {
    && (s.closed != {} ==> s.settled)
    && (s.job.status == Completed || s.job.status == Cancelled ==> s.settled)
    && (s.settled ==>
          s.job.status == Completed || s.job.status == Cancelled || s.job.retryCount >= s.job.maxRetries)
  }

  ghost predicate Inv<R>(s: State<R>) {
    && (forall i, j | 0 <= i < j < |s.threads| :: !(Active(s.threads[i]) && Active(s.threads[j])))
    && (forall i | 0 <= i < |s.threads| && Active(s.threads[i]) :: Fits(s, s.threads[i]))
    && (forall i | 0 <= i < |s.threads| && AfterSettling(s.threads[i]) :: s.settled)
    && Consistent(s)
  }

  /** Moving one goroutine keeps the invariant when its new place fits and no other one is disturbed. */
  lemma InvMove<R>(s: State<R>, s': State<R>, t: nat, th: Thread)
    requires Inv(s) && t < |s.threads| && s'.threads == s.threads[t := th] && Consistent(s')
    requires Active(th) ==>
               && Fits(s', th)
               && (Active(s.threads[t]) || forall i | 0 <= i < |s.threads| :: !Active(s.threads[i]))
    requires AfterSettling(th) ==> s'.settled
    requires s.settled ==> s'.settled
    requires Active(s.threads[t]) || (s'.job.status == s.job.status && s'.settled == s.settled)
             || forall i | 0 <= i < |s.threads| :: !Active(s.threads[i])
    ensures Inv(s')
  {
    forall i | 0 <= i < |s'.threads| && Active(s'.threads[i]) ensures Fits(s', s'.threads[i]) {
      if i != t { assert Active(s.threads[i]); }
    }
  }

  lemma InvExecutor<R>(s: State<R>, t: nat, storeOk: bool)
    requires Inv(s) && t < |s.threads| && s.threads[t].Executor?
    ensures Inv(StepExecutor(s, t, storeOk))
  {
    var s' := StepExecutor(s, t, storeOk);
    if s' != s { InvMove(s, s', t, s'.threads[t]); }
  }

  lemma InvFinish<R>(s: State<R>, t: nat, outcome: CommandResult<R>)
    requires Inv(s) && t < |s.threads| && s.threads[t] == Executor(Executing)
    ensures Inv(FinishExecutor(s, t, outcome))
  {
    assert Active(s.threads[t]);
    var s' := FinishExecutor(s, t, outcome);
    InvMove(s, s', t, s'.threads[t]);
  }

  lemma InvRetrier<R>(s: State<R>, t: nat, storeOk: bool)
    requires Inv(s) && t < |s.threads| && s.threads[t].Retrier?
    ensures Inv(StepRetrier(s, t, storeOk))
  {
    var s' := StepRetrier(s, t, storeOk);
    if s.threads[t].r.Spawning? {
      assert Active(s.threads[t]);
      var spawned := At(s, t, Retrier(Returned));
      InvMove(s, spawned, t, Retrier(Returned));
      assert forall i | 0 <= i < |spawned.threads| :: !Active(spawned.threads[i]);
    } else if s' != s {
      assert s.threads[t].r.Resetting? ==> AfterSettling(s.threads[t]);
      InvMove(s, s', t, s'.threads[t]);
    }
  }

  lemma InvCanceller<R>(s: State<R>, t: nat, storeOk: bool)
    requires Inv(s) && t < |s.threads| && s.threads[t].Canceller?
    ensures Inv(StepCanceller(s, t, storeOk))
  {
    var s' := StepCanceller(s, t, storeOk);
    assert AfterSettling(s.threads[t]);
    if s' != s { InvMove(s, s', t, s'.threads[t]); }
  }

  lemma InvCalls<R>(s: State<R>)
    requires Inv(s)
    ensures Inv(Step(s, CallRetry))
    ensures Timely(s, CallCancel) ==> Inv(Step(s, CallCancel))
  {
  }

  lemma InvStep<R>(s: State<R>, a: Action<R>)
    requires Inv(s) && Timely(s, a)
    ensures Inv(Step(s, a))
  {
    match a
    case ExecutorStep(t, storeOk) => if t < |s.threads| && s.threads[t].Executor? { InvExecutor(s, t, storeOk); }
    case RetrierStep(t, storeOk) => if t < |s.threads| && s.threads[t].Retrier? { InvRetrier(s, t, storeOk); }
    case CancellerStep(t, storeOk) => if t < |s.threads| && s.threads[t].Canceller? { InvCanceller(s, t, storeOk); }
    case Finish(t, outcome) =>
      if t < |s.threads| && s.threads[t] == Executor(Executing) { InvFinish(s, t, outcome); }
    case GiveUp(t) => if Step(s, a) != s { InvMove(s, Step(s, a), t, Retrier(Returned)); }
    case CallRetry => InvCalls(s);
    case CallCancel => InvCalls(s);
  }

  lemma {:induction false} InvRun<R>(s: State<R>, schedule: seq<Action<R>>)
    requires Inv(s) && TimelyRun(s, schedule)
    ensures Inv(Run(s, schedule))
    decreases |schedule|
  {
    if schedule != [] {
      InvStep(s, schedule[0]);
      InvRun(Step(s, schedule[0]), schedule[1..]);
    }
  }

  /**
   However many Retry calls race, and with any Cancels that are timely: two executors are never
   between their spawn and their final TryFail or TryComplete at once, so the command never runs
   twice at the same time.
   */
  lemma AtMostOneExecutor<R>(maxRetries: int, schedule: seq<Action<R>>)
    requires TimelyRun(AfterSubmit(maxRetries), schedule)
    ensures var s := Run(AfterSubmit<R>(maxRetries), schedule);
            forall i, j | 0 <= i < j < |s.threads| :: !(LiveExecutor(s.threads[i]) && LiveExecutor(s.threads[j]))
  {
    InvRun(AfterSubmit(maxRetries), schedule);
  }

  /** A run without successful Cancels is timely. */
  lemma {:induction false} RunsWithoutCancelAreTimely<R>(s: State<R>, schedule: seq<Action<R>>)
    requires forall i | 0 <= i < |schedule| :: !schedule[i].CallCancel?
    ensures TimelyRun(s, schedule)
    decreases |schedule|
  {
    if schedule != [] { RunsWithoutCancelAreTimely(Step(s, schedule[0]), schedule[1..]); }
  }

  // ---------------------------------------------------------------- ends that last

  /** The goroutine cannot disturb a job that has ended. */
  predicate Restful<R>(job: JobView<R>, th: Thread) {
    !AttemptAhead(th) && (job.status == Completed ==> !InAttempt(th))
  }

  /** The job is cancelled with no attempt ahead, or completed with no executor inside an attempt either. */
  ghost predicate Ended<R>(s: State<R>) {
    && (s.job.status == Completed || s.job.status == Cancelled)
    && forall i | 0 <= i < |s.threads| :: Restful(s.job, s.threads[i])
  }

  lemma EndedMove<R>(s: State<R>, s': State<R>, t: nat, th: Thread)
    requires Ended(s) && t < |s.threads| && s'.threads == s.threads[t := th]
    requires s'.job == s.job && Restful(s.job, th)
    ensures Ended(s')
  {
  }

  lemma EndedExecutor<R>(s: State<R>, t: nat, storeOk: bool)
    requires Ended(s) && t < |s.threads| && s.threads[t].Executor?
    ensures var s' := StepExecutor(s, t, storeOk);
            Ended(s') && s'.job == s.job && s'.starts == s.starts
  {
    var s' := StepExecutor(s, t, storeOk);
    assert Restful(s.job, s.threads[t]);
    if s' != s { EndedMove(s, s', t, s'.threads[t]); }
  }

  lemma EndedRetrier<R>(s: State<R>, t: nat, storeOk: bool)
    requires Ended(s) && t < |s.threads| && s.threads[t].Retrier?
    ensures var s' := StepRetrier(s, t, storeOk);
            Ended(s') && s'.job == s.job && s'.starts == s.starts
  {
    var s' := StepRetrier(s, t, storeOk);
    assert Restful(s.job, s.threads[t]);
    if s' != s { EndedMove(s, s', t, s'.threads[t]); }
  }

  lemma EndedFinish<R>(s: State<R>, t: nat, outcome: CommandResult<R>)
    requires Ended(s) && t < |s.threads| && s.threads[t] == Executor(Executing)
    ensures var s' := FinishExecutor(s, t, outcome);
            Ended(s') && s'.job == s.job && s'.starts == s.starts
  {
    assert Restful(s.job, s.threads[t]);
    EndedMove(s, FinishExecutor(s, t, outcome), t, Executor(Closing));
  }

  lemma EndedStep<R>(s: State<R>, a: Action<R>)
    requires Ended(s)
    ensures var s' := Step(s, a);
            Ended(s') && s'.job == s.job && s'.starts == s.starts
  {
    var s' := Step(s, a);
    match a
    case ExecutorStep(t, storeOk) => if t < |s.threads| && s.threads[t].Executor? { EndedExecutor(s, t, storeOk); }
    case RetrierStep(t, storeOk) => if t < |s.threads| && s.threads[t].Retrier? { EndedRetrier(s, t, storeOk); }
    case CancellerStep(t, _) => if s' != s { EndedMove(s, s', t, s'.threads[t]); }
    case Finish(t, outcome) =>
      if t < |s.threads| && s.threads[t] == Executor(Executing) { EndedFinish(s, t, outcome); }
    case GiveUp(t) => if s' != s { EndedMove(s, s', t, Retrier(Returned)); }
    case CallRetry => assert s'.threads == s.threads + [s'.threads[|s.threads|]];
    case CallCancel => assert s'.threads == s.threads || s'.threads == s.threads + [Canceller(Signalling)];
  }

  /** Whatever happens next, the job with its result stays as it is and no attempt starts. */
  lemma {:induction false} EndedForGood<R>(s: State<R>, schedule: seq<Action<R>>)
    requires Ended(s)
    ensures Run(s, schedule).job == s.job && Run(s, schedule).starts == s.starts
    decreases |schedule|
  {
    if schedule != [] {
      EndedStep(s, schedule[0]);
      EndedForGood(Step(s, schedule[0]), schedule[1..]);
    }
  }

  /** In timely runs a job that is completed or cancelled has ended. */
  lemma TimelyJobHasEnded<R>(s: State<R>)
    requires Inv(s) && (s.job.status == Completed || s.job.status == Cancelled)
    ensures Ended(s)
  {
    forall i | 0 <= i < |s.threads| ensures Restful(s.job, s.threads[i]) {
      assert Active(s.threads[i]) ==> Fits(s, s.threads[i]);
    }
  }

  /** Completed with its result is permanent, in all continuations of a timely run. */
  lemma CompletedIsPermanent<R>(maxRetries: int, before: seq<Action<R>>, after: seq<Action<R>>)
    requires TimelyRun(AfterSubmit(maxRetries), before)
    requires Run(AfterSubmit<R>(maxRetries), before).job.status == Completed
    ensures Run(AfterSubmit<R>(maxRetries), before + after).job == Run(AfterSubmit<R>(maxRetries), before).job
  {
    RunConcat(AfterSubmit(maxRetries), before, after);
    InvRun(AfterSubmit(maxRetries), before);
    TimelyJobHasEnded(Run(AfterSubmit<R>(maxRetries), before));
    EndedForGood(Run(AfterSubmit(maxRetries), before), after);
  }

  /** A schedule in which every Cancel that succeeds finds the job running. */
  ghost predicate CancelsOnlyRunningJobs<R>(s: State<R>, schedule: seq<Action<R>>)
    decreases |schedule|
  {
    schedule != [] ==>
      && (schedule[0].CallCancel? && Cancel(s.job).1 ==> s.job.status == Running)
      && CancelsOnlyRunningJobs(Step(s, schedule[0]), schedule[1..])
  }

  /** While the one executor is inside its attempt, no other goroutine has an attempt ahead. */
  lemma RunningHasNoAttemptAhead<R>(s: State<R>)
    requires Inv(s) && s.job.status == Running
    ensures NoAttemptAhead(s)
  {
    forall i | 0 <= i < |s.threads| ensures !AttemptAhead(s.threads[i]) {
      assert Active(s.threads[i]) ==> Fits(s, s.threads[i]);
    }
  }

  lemma {:induction false} RunsThatCancelOnlyRunningJobsAreTimely<R>(s: State<R>, schedule: seq<Action<R>>)
    requires Inv(s) && CancelsOnlyRunningJobs(s, schedule)
    ensures TimelyRun(s, schedule)
    decreases |schedule|
  {
    if schedule != [] {
      if s.job.status == Running { RunningHasNoAttemptAhead(s); }
      InvStep(s, schedule[0]);
      RunsThatCancelOnlyRunningJobsAreTimely(Step(s, schedule[0]), schedule[1..]);
    }
  }

  /**
   In runs where TryCancel only ever succeeds on a running job, store calls failing or not, Cancelled is
   permanent: nothing that follows changes the status or sets a result, and no attempt begins after the
   one already marked running.
   */
  lemma CancelledIsPermanent<R>(maxRetries: int, before: seq<Action<R>>, after: seq<Action<R>>)
    requires CancelsOnlyRunningJobs(AfterSubmit(maxRetries), before)
    requires Run(AfterSubmit<R>(maxRetries), before).job.status == Cancelled
    ensures var s, s' := Run(AfterSubmit<R>(maxRetries), before), Run(AfterSubmit<R>(maxRetries), before + after);
            s'.job == s.job && s'.starts == s.starts
  {
    RunConcat(AfterSubmit(maxRetries), before, after);
    RunsThatCancelOnlyRunningJobsAreTimely(AfterSubmit(maxRetries), before);
    InvRun(AfterSubmit(maxRetries), before);
    TimelyJobHasEnded(Run(AfterSubmit<R>(maxRetries), before));
    EndedForGood(Run(AfterSubmit(maxRetries), before), after);
  }

  /** No continuation changes the job or starts an attempt. */
  ghost predicate Final<R(!new)>(s: State<R>) {
    forall schedule: seq<Action<R>> ::
      Run(s, schedule).job == s.job && Run(s, schedule).starts == s.starts
  }

  /** A schedule in which goroutine t, with an attempt ahead, starts it. */
  function StartAttempt<R>(s: State<R>, t: nat): seq<Action<R>>
    requires t < |s.threads| && AttemptAhead(s.threads[t])
  {
    var go: Action<R>, on: Action<R>, spawned: Action<R> :=
      ExecutorStep(t, true), RetrierStep(t, true), ExecutorStep(|s.threads|, true);
    match s.threads[t]
    case Executor(e) => if e == Starting then [go] else [go, go]
    case Retrier(r) =>
      if r == Reopening then [on, on] + [on, spawned]
      else if r == Saving then [on] + [on, spawned]
      else [on, spawned]
  }

  lemma SpawningStarts<R>(s: State<R>, t: nat)
    requires t < |s.threads| && s.threads[t] == Retrier(Spawning)
    ensures Run(s, [RetrierStep(t, true), ExecutorStep(|s.threads|, true)]).job == Started(s.job)
  {
    RunOf2(s, RetrierStep(t, true), ExecutorStep(|s.threads|, true));
    assert Step(s, RetrierStep(t, true)).threads[|s.threads|] == Executor(Starting);
  }

  lemma SavingStarts<R>(s: State<R>, t: nat)
    requires t < |s.threads| && s.threads[t] == Retrier(Saving)
    ensures Run(s, [RetrierStep(t, true)] + [RetrierStep(t, true), ExecutorStep(|s.threads|, true)]).job
        == Started(s.job)
  {
    RunConcat(s, [RetrierStep(t, true)], [RetrierStep(t, true), ExecutorStep(|s.threads|, true)]);
    RunOf1(s, RetrierStep(t, true));
    SpawningStarts(Step(s, RetrierStep(t, true)), t);
  }

  lemma ReopeningStarts<R>(s: State<R>, t: nat)
    requires t < |s.threads| && s.threads[t] == Retrier(Reopening)
    ensures var on: Action<R> := RetrierStep(t, true);
            Run(s, [on, on] + [on, ExecutorStep(|s.threads|, true)]).job == Started(s.job)
  {
    var on: Action<R> := RetrierStep(t, true);
    RunConcat(s, [on, on], [on, ExecutorStep(|s.threads|, true)]);
    RunOf2(s, on, on);
    ReopensAndSaves(s, t);
    SpawningStarts(Step(Step(s, on), on), t);
  }

  lemma ReopensAndSaves<R>(s: State<R>, t: nat)
    requires t < |s.threads| && s.threads[t] == Retrier(Reopening)
    ensures var s' := Step(Step(s, RetrierStep(t, true)), RetrierStep(t, true));
            |s'.threads| == |s.threads| && s'.threads[t] == Retrier(Spawning) && s'.job == s.job
  {
    var s1 := Step(s, RetrierStep(t, true));
    assert s1.threads == s.threads[t := Retrier(Saving)];
  }

  lemma AttemptStarts<R>(s: State<R>, t: nat)
    requires t < |s.threads| && AttemptAhead(s.threads[t])
    ensures Run(s, StartAttempt(s, t)).job == Started(s.job)
  {
    match s.threads[t]
    case Executor(e) =>
      var go: Action<R> := ExecutorStep(t, true);
      if e == Starting { RunOf1(s, go); } else { RunOf2(s, go, go); }
    case Retrier(r) =>
      if r == Reopening { ReopeningStarts(s, t); }
      else if r == Saving { SavingStarts(s, t); }
      else { SpawningStarts(s, t); }
  }

  lemma RunOf1<R>(s: State<R>, a: Action<R>)
    ensures Run(s, [a]) == Step(s, a)
  {
    assert Run(Step(s, a), [a][1..]) == Step(s, a);
  }

  lemma RunOf2<R>(s: State<R>, a: Action<R>, b: Action<R>)
    ensures Run(s, [a, b]) == Step(Step(s, a), b)
  {
    assert [a, b][1..] == [b];
    RunOf1(Step(s, a), b);
  }

  lemma RunOf4<R>(s: State<R>, a: Action<R>, b: Action<R>, c: Action<R>, d: Action<R>)
    ensures Run(s, [a, b, c, d]) == Step(Step(Step(Step(s, a), b), c), d)
  {
    assert [a, b, c, d] == [a, b] + [c, d];
    RunConcat(s, [a, b], [c, d]);
    RunOf2(s, a, b);
    RunOf2(Run(s, [a, b]), c, d);
  }

  /**
   In any state, whatever led to it, a successful Cancel is final exactly when no attempt lies ahead: an
   executor before MarkRunning, or a Retry that has reset the job, overwrites a cancelled job's status.
   */
  lemma CancelIsFinalIff<R(!new)>(s: State<R>)
    requires Cancel(s.job).1
    ensures Final(Step(s, CallCancel)) <==> NoAttemptAhead(s)
  {
    var s' := Step(s, CallCancel);
    if NoAttemptAhead(s) {
      assert forall i | 0 <= i < |s'.threads| :: Restful(s'.job, s'.threads[i]);
      forall schedule: seq<Action<R>>
        ensures Run(s', schedule).job == s'.job && Run(s', schedule).starts == s'.starts
      {
        EndedForGood(s', schedule);
      }
    } else {
      var t :| 0 <= t < |s.threads| && AttemptAhead(s.threads[t]);
      assert s'.threads[t] == s.threads[t];
      AttemptStarts(s', t);
      assert Run(s', StartAttempt(s', t)).job != s'.job;
    }
  }

  /** A job that waits for its first or next attempt has a goroutine that will start it. */
  ghost predicate Attended<R>(s: State<R>) {
    s.job.status == Pending || (s.job.status == Failed && !s.settled) ==> !NoAttemptAhead(s)
  }

  /** The goroutine with the attempt ahead starts it, hands it on, or keeps it. */
  ghost predicate StillAhead<R>(s: State<R>, s': State<R>, i: nat)
    requires i < |s.threads|
  {
    && |s'.threads| >= |s.threads|
    && (s'.job.status == Running || AttemptAhead(s'.threads[i])
        || (|s'.threads| > |s.threads| && AttemptAhead(s'.threads[|s.threads|])))
  }

  lemma ExecutorStillAhead<R>(s: State<R>, t: nat, i: nat)
    requires t < |s.threads| && s.threads[t].Executor? && i < |s.threads| && AttemptAhead(s.threads[i])
    ensures StillAhead(s, StepExecutor(s, t, true), i)
  {
  }

  lemma RetrierStillAhead<R>(s: State<R>, t: nat, i: nat)
    requires t < |s.threads| && s.threads[t].Retrier? && i < |s.threads| && AttemptAhead(s.threads[i])
    ensures StillAhead(s, StepRetrier(s, t, true), i)
  {
  }

  lemma AttemptAheadStays<R>(s: State<R>, a: Action<R>, i: nat)
    requires StoreWorks(a) && i < |s.threads| && AttemptAhead(s.threads[i])
    ensures StillAhead(s, Step(s, a), i)
  {
    match a
    case ExecutorStep(t, _) => if t < |s.threads| && s.threads[t].Executor? { ExecutorStillAhead(s, t, i); }
    case RetrierStep(t, _) => if t < |s.threads| && s.threads[t].Retrier? { RetrierStillAhead(s, t, i); }
    case _ =>
  }

  /** Only TryFail and ResetForRetry make a job wait for an attempt. */
  lemma WaitingBegins<R>(s: State<R>, a: Action<R>)
    requires Inv(s) && NoAttemptAhead(s) && Attended(s) && Timely(s, a)
    ensures Attended(Step(s, a))
  {
    var s' := Step(s, a);
    match a
    case ExecutorStep(t, _) => assert s'.job == s.job || s'.job.status == Running;
    case RetrierStep(t, _) => if s'.job != s.job { assert AttemptAhead(s'.threads[t]); }
    case Finish(t, _) =>
      if t < |s.threads| && s.threads[t] == Executor(Executing) {
        assert Active(s.threads[t]) && Fits(s, s.threads[t]);
        if s'.job.status == Failed && !s'.settled { assert AttemptAhead(s'.threads[t]); }
      }
    case _ =>
  }

  lemma AttendedStep<R>(s: State<R>, a: Action<R>)
    requires Inv(s) && Attended(s) && Timely(s, a) && StoreWorks(a)
    ensures Attended(Step(s, a))
  {
    if NoAttemptAhead(s) {
      WaitingBegins(s, a);
    } else {
      var i :| 0 <= i < |s.threads| && AttemptAhead(s.threads[i]);
      AttemptAheadStays(s, a, i);
    }
  }

  lemma {:induction false} AttendedRun<R>(s: State<R>, schedule: seq<Action<R>>)
    requires Inv(s) && Attended(s) && TimelyRun(s, schedule)
    requires forall i | 0 <= i < |schedule| :: StoreWorks(schedule[i])
    ensures Inv(Run(s, schedule)) && Attended(Run(s, schedule))
    decreases |schedule|
  {
    if schedule != [] {
      InvStep(s, schedule[0]);
      AttendedStep(s, schedule[0]);
      AttendedRun(Step(s, schedule[0]), schedule[1..]);
    }
  }

  /** The goroutines of a job that has failed for good have no attempt ahead. */
  lemma SettledFailureHasNoAttemptAhead<R>(s: State<R>)
    requires Inv(s) && s.job.status == Failed && s.settled
    ensures NoAttemptAhead(s)
  {
    forall i | 0 <= i < |s.threads| ensures !AttemptAhead(s.threads[i]) {
      assert Active(s.threads[i]) ==> Fits(s, s.threads[i]);
    }
  }

  lemma WaitingHasAnAttemptAhead<R>(maxRetries: int, schedule: seq<Action<R>>)
    requires TimelyRun(AfterSubmit(maxRetries), schedule)
    requires forall i | 0 <= i < |schedule| :: StoreWorks(schedule[i])
    ensures Attended(Run(AfterSubmit<R>(maxRetries), schedule))
  {
    assert AttemptAhead(AfterSubmit<R>(maxRetries).threads[0]);
    AttendedRun(AfterSubmit(maxRetries), schedule);
  }

  /**
   The same from the job alone: a successful Cancel is final on a running job and on one that will not be
   retried automatically; when store calls work, on no other.
   */
  lemma CancelIsFinalByStatus<R(!new)>(maxRetries: int, schedule: seq<Action<R>>)
    requires TimelyRun(AfterSubmit(maxRetries), schedule)
    requires Cancel(Run(AfterSubmit<R>(maxRetries), schedule).job).1
    ensures var s := Run(AfterSubmit<R>(maxRetries), schedule);
            var lasting := s.job.status == Running || (s.job.status == Failed && s.settled);
            && (lasting ==> Final(Step(s, CallCancel)))
            && ((forall i | 0 <= i < |schedule| :: StoreWorks(schedule[i]))
                ==> (Final(Step(s, CallCancel)) ==> lasting))
  {
    var s := Run(AfterSubmit<R>(maxRetries), schedule);
    InvRun(AfterSubmit(maxRetries), schedule);
    CancelIsFinalIff(s);
    if s.job.status == Running { RunningHasNoAttemptAhead(s); }
    if s.job.status == Failed && s.settled { SettledFailureHasNoAttemptAhead(s); }
    if forall i | 0 <= i < |schedule| :: StoreWorks(schedule[i]) { WaitingHasAnAttemptAhead(maxRetries, schedule); }
  }

  /**
   What a caller can read off the job: a Cancel of a failed job whose channel is closed is final; when
   store calls work, one of a pending job, or of a failed job with retries left, is not.
   */
  lemma CancelIsFinalByFields<R(!new)>(maxRetries: int, schedule: seq<Action<R>>)
    requires TimelyRun(AfterSubmit(maxRetries), schedule)
    ensures var s := Run(AfterSubmit<R>(maxRetries), schedule);
            && (s.job.status == Failed && s.done.Some? && s.done.value in s.closed ==> Final(Step(s, CallCancel)))
            && ((forall i | 0 <= i < |schedule| :: StoreWorks(schedule[i])) &&
                (s.job.status == Pending || (s.job.status == Failed && s.job.retryCount < s.job.maxRetries)) ==>
                  !Final(Step(s, CallCancel)))
  {
    var s := Run(AfterSubmit<R>(maxRetries), schedule);
    InvRun(AfterSubmit(maxRetries), schedule);
    if s.job.status == Failed || s.job.status == Pending { CancelIsFinalByStatus(maxRetries, schedule); }
  }

  // ---------------------------------------------------------------- the retry budget

  predicate BeforeExecute(th: Thread) {
    th.Executor? && (th.e == Starting || th.e == Marked || th.e == Ready || th.e == Retrying)
  }

  /** Executors that will call Execute once more. */
  function Waiters(threads: seq<Thread>): nat {
    if threads == [] then 0
    else Waiters(threads[..|threads| - 1]) + (if BeforeExecute(threads[|threads| - 1]) then 1 else 0)
  }

  lemma {:induction false} WaitersUpdate(threads: seq<Thread>, t: nat, th: Thread)
    requires t < |threads|
    ensures Waiters(threads[t := th]) ==
              Waiters(threads) + (if BeforeExecute(th) then 1 else 0) - (if BeforeExecute(threads[t]) then 1 else 0)
  {
    var last := |threads| - 1;
    if t == last {
      assert threads[t := th][..last] == threads[..last];
    } else {
      assert threads[t := th][..last] == threads[..last][t := th];
      WaitersUpdate(threads[..last], t, th);
    }
  }

  lemma WaitersAppend(threads: seq<Thread>, th: Thread)
    ensures Waiters(threads + [th]) == Waiters(threads) + (if BeforeExecute(th) then 1 else 0)
  {
    assert (threads + [th])[..|threads|] == threads;
  }

  /** Every Execute call, made or still to come, is paid for by Submit, a Retry or a counted retry. */
  ghost predicate Ledger<R>(s: State<R>) {
    && s.executes + Waiters(s.threads) == 1 + s.retries + s.job.retryCount
    && 0 <= s.job.retryCount
    && (s.job.retryCount > 0 ==> s.job.retryCount <= s.job.maxRetries)
  }

  ghost predicate BudgetMoves<R>(s: State<R>, s': State<R>) {
    && s'.job.maxRetries == s.job.maxRetries
    && s.job.retryCount <= s'.job.retryCount <= s.job.retryCount + 1
    && (s'.job.retryCount > s.job.retryCount ==> s.job.retryCount < s.job.maxRetries)
  }

  lemma LedgerMove<R>(s: State<R>, s': State<R>, t: nat, th: Thread)
    requires Ledger(s) && t < |s.threads| && s'.threads == s.threads[t := th] && BudgetMoves(s, s')
    requires s'.executes + (if BeforeExecute(th) then 1 else 0) + s.retries + s.job.retryCount
             == s.executes + (if BeforeExecute(s.threads[t]) then 1 else 0) + s'.retries + s'.job.retryCount
    ensures Ledger(s')
  {
    WaitersUpdate(s.threads, t, th);
  }

  lemma LedgerExecutor<R>(s: State<R>, t: nat, storeOk: bool)
    requires Ledger(s) && t < |s.threads| && s.threads[t].Executor?
    ensures Ledger(StepExecutor(s, t, storeOk)) && BudgetMoves(s, StepExecutor(s, t, storeOk))
  {
    var s' := StepExecutor(s, t, storeOk);
    match s.threads[t].e
    case Starting => LedgerMove(s, s', t, Executor(Marked));
    case Marked => LedgerMove(s, s', t, Executor(Ready));
    case Ready => LedgerMove(s, s', t, Executor(Executing));
    case Retrying => LedgerMove(s, s', t, Executor(Starting));
    case Settled => LedgerMove(s, s', t, Executor(Closing));
    case Closing => LedgerMove(s, s', t, Executor(Exited));
    case _ =>
  }

  lemma LedgerFinish<R>(s: State<R>, t: nat, outcome: CommandResult<R>)
    requires Ledger(s) && t < |s.threads| && s.threads[t] == Executor(Executing)
    ensures Ledger(FinishExecutor(s, t, outcome)) && BudgetMoves(s, FinishExecutor(s, t, outcome))
  {
    var s' := FinishExecutor(s, t, outcome);
    LedgerMove(s, s', t, s'.threads[t]);
  }

  lemma LedgerSpawning<R>(s: State<R>, t: nat)
    requires Ledger(s) && t < |s.threads| && s.threads[t] == Retrier(Spawning)
    ensures Ledger(StepRetrier(s, t, true)) && BudgetMoves(s, StepRetrier(s, t, true))
  {
    var returned := At(s, t, Retrier(Returned));
    LedgerMove(s, returned, t, Retrier(Returned));
    WaitersAppend(returned.threads, Executor(Starting));
  }

  lemma LedgerRetrier<R>(s: State<R>, t: nat, storeOk: bool)
    requires Ledger(s) && t < |s.threads| && s.threads[t].Retrier?
    ensures Ledger(StepRetrier(s, t, storeOk)) && BudgetMoves(s, StepRetrier(s, t, storeOk))
  {
    var s' := StepRetrier(s, t, storeOk);
    if s.threads[t].r.Spawning? {
      LedgerSpawning(s, t);
    } else if s' != s {
      assert s'.job.retryCount == s.job.retryCount && s'.job.maxRetries == s.job.maxRetries;
      LedgerMove(s, s', t, s'.threads[t]);
    }
  }

  lemma LedgerCanceller<R>(s: State<R>, t: nat, storeOk: bool)
    requires Ledger(s) && t < |s.threads| && s.threads[t].Canceller?
    ensures Ledger(StepCanceller(s, t, storeOk)) && BudgetMoves(s, StepCanceller(s, t, storeOk))
  {
    var s' := StepCanceller(s, t, storeOk);
    if s' != s { LedgerMove(s, s', t, s'.threads[t]); }
  }

  lemma LedgerJoin<R>(s: State<R>, s': State<R>, th: Thread)
    requires Ledger(s) && s'.threads == s.threads + [th] && !BeforeExecute(th)
    requires s'.executes == s.executes && s'.retries == s.retries
    requires s'.job.retryCount == s.job.retryCount && s'.job.maxRetries == s.job.maxRetries
    ensures Ledger(s') && BudgetMoves(s, s')
  {
    WaitersAppend(s.threads, th);
  }

  lemma LedgerStep<R>(s: State<R>, a: Action<R>)
    requires Ledger(s)
    ensures Ledger(Step(s, a)) && BudgetMoves(s, Step(s, a))
  {
    match a
    case ExecutorStep(t, storeOk) => if t < |s.threads| && s.threads[t].Executor? { LedgerExecutor(s, t, storeOk); }
    case RetrierStep(t, storeOk) => if t < |s.threads| && s.threads[t].Retrier? { LedgerRetrier(s, t, storeOk); }
    case CancellerStep(t, storeOk) => if t < |s.threads| && s.threads[t].Canceller? { LedgerCanceller(s, t, storeOk); }
    case Finish(t, outcome) =>
      if t < |s.threads| && s.threads[t] == Executor(Executing) { LedgerFinish(s, t, outcome); }
    case GiveUp(t) => if Step(s, a) != s { LedgerMove(s, Step(s, a), t, Retrier(Returned)); }
    case CallRetry => LedgerJoin(s, Step(s, a), Retrier(Waiting(WithChannel(s).done.value)));
    case CallCancel => if Cancel(s.job).1 { LedgerJoin(s, Step(s, a), Canceller(Signalling)); }
  }

  lemma {:induction false} LedgerRun<R>(s: State<R>, schedule: seq<Action<R>>)
    requires Ledger(s)
    ensures var s' := Run(s, schedule);
            Ledger(s') && s'.job.maxRetries == s.job.maxRetries && s.job.retryCount <= s'.job.retryCount
    decreases |schedule|
  {
    if schedule != [] {
      LedgerStep(s, schedule[0]);
      LedgerRun(Step(s, schedule[0]), schedule[1..]);
    }
  }

  /** The executor goes round its loop again, which spends one retry of the budget. */
  predicate Continues<R>(s: State<R>, a: Action<R>) {
    && a.Finish? && a.t < |s.threads| && s.threads[a.t] == Executor(Executing)
    && Step(s, a).threads[a.t] == Executor(Retrying)
  }

  /** How often executors go round their loops in a run. */
  function Rounds<R>(s: State<R>, schedule: seq<Action<R>>): nat
    decreases |schedule|
  {
    if schedule == [] then 0
    else (if Continues(s, schedule[0]) then 1 else 0) + Rounds(Step(s, schedule[0]), schedule[1..])
  }

  lemma FinishSpendsARetry<R>(s: State<R>, t: nat, outcome: CommandResult<R>)
    requires t < |s.threads| && s.threads[t] == Executor(Executing)
    ensures var s' := FinishExecutor(s, t, outcome);
            && s'.job.maxRetries == s.job.maxRetries
            && s'.job.retryCount == s.job.retryCount + (if s'.threads[t] == Executor(Retrying) then 1 else 0)
            && (s'.threads[t] == Executor(Retrying) ==> s.job.retryCount < s.job.maxRetries)
  {
  }

  lemma OthersSpendNoRetry<R>(s: State<R>, a: Action<R>)
    requires !a.Finish?
    ensures Step(s, a).job.maxRetries == s.job.maxRetries && Step(s, a).job.retryCount == s.job.retryCount
  {
  }

  /** Every `continue` makes maxRetries - retryCount, which was positive, smaller by one; nothing else changes it. */
  lemma ContinueSpendsARetry<R>(s: State<R>, a: Action<R>)
    ensures var s' := Step(s, a);
            && s'.job.maxRetries == s.job.maxRetries
            && s'.job.retryCount == s.job.retryCount + (if Continues(s, a) then 1 else 0)
            && (Continues(s, a) ==> s.job.retryCount < s.job.maxRetries)
  {
    if !a.Finish? {
      OthersSpendNoRetry(s, a);
    } else if a.t < |s.threads| && s.threads[a.t] == Executor(Executing) {
      FinishSpendsARetry(s, a.t, a.outcome);
    }
  }

  /** In any run, from any state, the retry count is exactly the number of times a loop was continued. */
  lemma {:induction false} RoundsAreCounted<R>(s: State<R>, schedule: seq<Action<R>>)
    ensures Run(s, schedule).job.retryCount == s.job.retryCount + Rounds(s, schedule)
    ensures Run(s, schedule).job.maxRetries == s.job.maxRetries
    ensures Rounds(s, schedule) > 0 ==> Run(s, schedule).job.retryCount <= s.job.maxRetries
    decreases |schedule|
  {
    if schedule != [] {
      ContinueSpendsARetry(s, schedule[0]);
      RoundsAreCounted(Step(s, schedule[0]), schedule[1..]);
    }
  }

  /**
   In every interleaving, Cancel races included: the retry count never passes the budget, and the
   command is executed at most once for Submit, once per counted retry and once per successful Retry.
   */
  lemma RetryBudget<R>(maxRetries: nat, schedule: seq<Action<R>>)
    ensures var s := Run(AfterSubmit<R>(maxRetries), schedule);
            && 0 <= s.job.retryCount <= maxRetries
            && s.executes <= 1 + s.retries + s.job.retryCount
            && s.executes <= maxRetries + 1 + s.retries
            && Rounds(AfterSubmit<R>(maxRetries), schedule) == s.job.retryCount
  {
    var start := AfterSubmit<R>(maxRetries);
    assert start.threads[..0] == [];
    assert Waiters(start.threads) == 1;
    LedgerRun(start, schedule);
    RoundsAreCounted(start, schedule);
  }

  /** The retry count never goes down, from any point of a run to any later one. */
  lemma RetryCountNeverDecreases<R>(maxRetries: nat, before: seq<Action<R>>, after: seq<Action<R>>)
    ensures Run(AfterSubmit<R>(maxRetries), before).job.retryCount
            <= Run(AfterSubmit<R>(maxRetries), before + after).job.retryCount
  {
    var start := AfterSubmit<R>(maxRetries);
    assert start.threads[..0] == [];
    assert Waiters(start.threads) == 1;
    LedgerRun(start, before);
    LedgerRun(Run(start, before), after);
    RunConcat(start, before, after);
  }

  // ---------------------------------------------------------------- the store follows the job

  /** The goroutine has changed the job, or may have, and its store update is still to come. */
  predicate Unsaved(th: Thread) {
    match th
    case Executor(e) => e == Marked || e == Retrying || e == Settled
    case Retrier(r) => r == Reopening || r == Saving
    case Canceller(c) => c == Signalling || c == Storing
  }

  ghost predicate StoreFollows<R>(s: State<R>) {
    s.stored == s.job || exists i :: 0 <= i < |s.threads| && Unsaved(s.threads[i])
  }

  predicate StoreWorks<R>(a: Action<R>) {
    a.ExecutorStep? || a.RetrierStep? || a.CancellerStep? ==> a.storeOk
  }

  lemma UnsavedStays<R>(s: State<R>, a: Action<R>, i: nat)
    requires StoreWorks(a) && i < |s.threads| && Unsaved(s.threads[i])
    ensures var s' := Step(s, a);
            i < |s'.threads| && (s'.stored == s'.job || Unsaved(s'.threads[i]))
  {
    match a
    case ExecutorStep(t, _) => assert t == i || Step(s, a).threads[i] == s.threads[i];
    case RetrierStep(t, _) => assert t == i || Step(s, a).threads[i] == s.threads[i];
    case CancellerStep(t, _) => assert t == i || Step(s, a).threads[i] == s.threads[i];
    case _ =>
  }

  lemma ChangerIsUnsaved<R>(s: State<R>, a: Action<R>)
    requires StoreWorks(a) && s.stored == s.job
    ensures StoreFollows(Step(s, a))
  {
    var s' := Step(s, a);
    match a
    case ExecutorStep(t, _) => if s'.job != s.job { assert Unsaved(s'.threads[t]); }
    case RetrierStep(t, _) => if s'.job != s.job { assert Unsaved(s'.threads[t]); }
    case Finish(t, _) => if s'.job != s.job { assert Unsaved(s'.threads[t]); }
    case CallCancel => if s'.job != s.job { assert Unsaved(s'.threads[|s.threads|]); }
    case _ =>
  }

  lemma StoreFollowsStep<R>(s: State<R>, a: Action<R>)
    requires StoreFollows(s) && StoreWorks(a)
    ensures StoreFollows(Step(s, a))
  {
    if s.stored == s.job {
      ChangerIsUnsaved(s, a);
    } else {
      var i :| 0 <= i < |s.threads| && Unsaved(s.threads[i]);
      UnsavedStays(s, a, i);
    }
  }

  /**
   With working store calls, in every interleaving of executors, Retries and Cancels: whenever no
   goroutine stands between changing the job and its store update, the store holds the live job.
   */
  lemma {:induction false} StoreFollowsJob<R>(s: State<R>, schedule: seq<Action<R>>)
    requires StoreFollows(s)
    requires forall i | 0 <= i < |schedule| :: StoreWorks(schedule[i])
    ensures StoreFollows(Run(s, schedule))
    decreases |schedule|
  {
    if schedule != [] {
      StoreFollowsStep(s, schedule[0]);
      StoreFollowsJob(Step(s, schedule[0]), schedule[1..]);
    }
  }

  lemma QuietStoreHoldsTheJob<R>(maxRetries: int, schedule: seq<Action<R>>)
    requires forall i | 0 <= i < |schedule| :: StoreWorks(schedule[i])
    ensures var s := Run(AfterSubmit<R>(maxRetries), schedule);
            (forall i | 0 <= i < |s.threads| :: !Unsaved(s.threads[i])) ==> s.stored == s.job
  {
    StoreFollowsJob(AfterSubmit(maxRetries), schedule);
  }

  // ---------------------------------------------------------------- the channel of the current attempt

  /** An executor or a Retry on its way to spawning one, at whose end the current channel gets closed. */
  predicate Closer(th: Thread) {
    match th
    case Executor(e) => e != Exited
    case Retrier(r) => r == Saving || r == Spawning
    case Canceller(_) => false
  }

  predicate ChannelClosed<R>(s: State<R>) {
    s.done.Some? && s.done.value in s.closed
  }

  ghost predicate Released<R>(s: State<R>) {
    ChannelClosed(s) || exists i :: 0 <= i < |s.threads| && Closer(s.threads[i])
  }

  lemma CloserMoves<R>(s: State<R>, a: Action<R>, i: nat)
    requires StoreWorks(a) && i < |s.threads| && Closer(s.threads[i])
    ensures var s' := Step(s, a);
            && |s'.threads| >= |s.threads|
            && (ChannelClosed(s') || Closer(s'.threads[i])
                || (|s'.threads| > |s.threads| && Closer(s'.threads[|s.threads|])))
  {
    match a
    case ExecutorStep(t, _) => assert t == i || Step(s, a).threads[i] == s.threads[i];
    case RetrierStep(t, _) => assert t == i || Step(s, a).threads[i] == s.threads[i];
    case CancellerStep(t, _) => assert t == i || Step(s, a).threads[i] == s.threads[i];
    case _ =>
  }

  lemma ReleasedStep<R>(s: State<R>, a: Action<R>)
    requires Released(s) && StoreWorks(a)
    ensures Released(Step(s, a))
  {
    if i :| 0 <= i < |s.threads| && Closer(s.threads[i]) {
      CloserMoves(s, a, i);
    } else if a.RetrierStep? && Step(s, a) != s {
      assert ChannelClosed(Step(s, a)) || Closer(Step(s, a).threads[a.t]);
    }
  }

  lemma {:induction false} ReleasedRun<R>(s: State<R>, schedule: seq<Action<R>>)
    requires Released(s) && forall i | 0 <= i < |schedule| :: StoreWorks(schedule[i])
    ensures Released(Run(s, schedule))
    decreases |schedule|
  {
    if schedule != [] {
      ReleasedStep(s, schedule[0]);
      ReleasedRun(Step(s, schedule[0]), schedule[1..]);
    }
  }

  /**
   Nobody waits for ever: with working store calls, in every interleaving, once all executors have ended
   and no Retry is about to spawn one, the job's channel is closed.
   */
  lemma WaitersAreReleased<R>(maxRetries: int, schedule: seq<Action<R>>)
    requires forall i | 0 <= i < |schedule| :: StoreWorks(schedule[i])
    ensures var s := Run(AfterSubmit<R>(maxRetries), schedule);
            (forall i | 0 <= i < |s.threads| :: !Closer(s.threads[i])) ==> ChannelClosed(s)
  {
    assert Closer(AfterSubmit<R>(maxRetries).threads[0]);
    ReleasedRun(AfterSubmit(maxRetries), schedule);
  }

  /** Channels are numbered as they are made. */
  ghost predicate ChannelsOk<R>(s: State<R>) {
    && (s.done.Some? ==> s.done.value < s.channels)
    && (forall c | c in s.closed :: c < s.channels)
  }

  lemma ChannelsOkStep<R>(s: State<R>, a: Action<R>)
    requires ChannelsOk(s)
    ensures ChannelsOk(Step(s, a))
  {
  }

  lemma {:induction false} ChannelsStayOk<R>(s: State<R>, schedule: seq<Action<R>>)
    requires ChannelsOk(s)
    ensures ChannelsOk(Run(s, schedule))
    decreases |schedule|
  {
    if schedule != [] {
      ChannelsOkStep(s, schedule[0]);
      ChannelsStayOk(Step(s, schedule[0]), schedule[1..]);
    }
  }

  /** A Retry that resets the job gives it an open channel that the job never had, for later callers to wait on. */
  lemma RetryReopensTheChannel<R>(maxRetries: int, schedule: seq<Action<R>>, t: nat, storeOk: bool)
    requires var s := Run(AfterSubmit<R>(maxRetries), schedule);
             t < |s.threads| && s.threads[t] == Retrier(Reopening)
    ensures var s := Run(AfterSubmit<R>(maxRetries), schedule);
            var s' := Step(s, RetrierStep(t, storeOk));
            s'.done.Some? && s'.done != s.done && !ChannelClosed(s')
  {
    ChannelsStayOk(AfterSubmit<R>(maxRetries), schedule);
  }

  /** A Retry whose store update fails leaves a pending job that nobody is going to run. */
  lemma FailedRetryStrandsTheJob<R>(s: State<R>, t: nat)
    requires Inv(s) && t < |s.threads| && s.threads[t] == Retrier(Saving)
    ensures var s' := Step(s, RetrierStep(t, false));
            s'.job == s.job && s.job.status == Pending && NoAttemptAhead(s') && s'.threads[t] == Retrier(Returned)
  {
    assert Active(s.threads[t]) && Fits(s, s.threads[t]);
    var s' := Step(s, RetrierStep(t, false));
    assert forall i | 0 <= i < |s.threads| && i != t :: !Active(s.threads[i]);
    assert s'.threads == s.threads[t := Retrier(Returned)];
  }

  /** A job that a Retry has reset meanwhile stays fresh, whatever Execute returns; only an error stores it again. */
  lemma ResetJobStaysPending<R>(s: State<R>, t: nat, outcome: CommandResult<R>)
    requires t < |s.threads| && s.threads[t] == Executor(Executing) && s.job.status == Pending
    ensures var s1 := Step(s, Finish(t, outcome));
            var s2 := Step(s1, ExecutorStep(t, true));
            && s1.job == s.job == s2.job
            && s2.stored == (if outcome.Err? then s.job else s.stored)
            && s2.threads[t] == Executor(if outcome.Err? then Closing else Exited)
  {
    var s1 := Step(s, Finish(t, outcome));
    assert s1.threads[t].Executor?;
  }

  // ---------------------------------------------------------------- one attempt as a run

  /** One undisturbed attempt of the executor t = 0, or one that is cancelled during Execute. */
  function AttemptSchedule<R>(outcome: CommandResult<R>, cancelled: bool, again: bool): seq<Action<R>> {
    var go: Action<R> := ExecutorStep(0, true);
    [go, go] + ([go] + ((if cancelled then [CallCancel] else []) + ([Finish(0, outcome)]
    + (if again || cancelled then [go] else [go, go]))))
  }

  lemma ExecutorEnters<R>(s: State<R>)
    requires s.threads == [Executor(Starting)]
    ensures var go: Action<R> := ExecutorStep(0, true);
            var s' := Run(Run(s, [go, go]), [go]);
            && s'.job == Started(s.job) == s'.stored && s'.threads == [Executor(Executing)]
            && s'.done == s.done && s'.closed == s.closed
  {
    var go: Action<R> := ExecutorStep(0, true);
    RunOf2(s, go, go);
    var s1 := Step(s, go);
    assert s1.threads == [Executor(Marked)];
    var s2 := Step(s1, go);
    assert s2.threads == [Executor(Ready)];
    RunOf1(s2, go);
  }

  /** What an attempt leaves of the job and in the store. */
  ghost predicate AttemptLeaves<R>(
      job: JobView<R>, outcome: CommandResult<R>, cancelled: bool, job': JobView<R>, stored': JobView<R>)
  {
    if cancelled then
      job' == job.(status := Cancelled) && stored' == job.(status := Running)
    else
      && stored' == job'
      && match outcome
         case Ok(result) => job' == job.(status := Completed, result := Some(result))
         case Err(message) =>
           var counted := if job.retryCount < job.maxRetries then job.retryCount + 1 else job.retryCount;
           job' == job.(status := Failed, error := message, retryCount := counted)
  }

  lemma ExecutorLeaves<R>(s: State<R>, outcome: CommandResult<R>, cancelled: bool)
    requires s.threads != [] && s.threads[0] == Executor(Executing)
    requires s.job.status == if cancelled then Cancelled else Running
    ensures var go: Action<R> := ExecutorStep(0, true);
            var again := outcome.Err? && !cancelled && s.job.retryCount < s.job.maxRetries;
            var s' := Run(Run(s, [Finish(0, outcome)]), if again || cancelled then [go] else [go, go]);
            && |s'.threads| > 0 && s'.threads[0] == Executor(if again then Starting else Exited)
            && (if cancelled then s'.job == s.job && s'.stored == s.stored
                else AttemptLeaves(s.job, outcome, false, s'.job, s'.stored))
            && (!again ==> ChannelClosed(s'))
  {
    var go: Action<R> := ExecutorStep(0, true);
    var again := outcome.Err? && !cancelled && s.job.retryCount < s.job.maxRetries;
    RunOf1(s, Finish(0, outcome));
    var s1 := Step(s, Finish(0, outcome));
    if again || cancelled { RunOf1(s1, go); } else { RunOf2(s1, go, go); }
  }

  /** The steps of an attempt, taken by one executor, do to job and store what executeJob's loop body does. */
  lemma AttemptIsARun<R>(s: State<R>, outcome: CommandResult<R>, cancelled: bool)
    requires s.threads == [Executor(Starting)]
    ensures var again := outcome.Err? && !cancelled && s.job.retryCount < s.job.maxRetries;
            var s' := Run(s, AttemptSchedule(outcome, cancelled, again));
            && |s'.threads| > 0 && s'.threads[0] == Executor(if again then Starting else Exited)
            && AttemptLeaves(s.job, outcome, cancelled, s'.job, s'.stored)
            && (!again ==> ChannelClosed(s'))
  {
    var go: Action<R> := ExecutorStep(0, true);
    var again := outcome.Err? && !cancelled && s.job.retryCount < s.job.maxRetries;
    var tail := if again || cancelled then [go] else [go, go];
    var cancel: seq<Action<R>> := if cancelled then [CallCancel] else [];
    RunConcat(s, [go, go], [go] + (cancel + ([Finish(0, outcome)] + tail)));
    RunConcat(Run(s, [go, go]), [go], cancel + ([Finish(0, outcome)] + tail));
    ExecutorEnters(s);
    var s3 := Run(Run(s, [go, go]), [go]);
    RunConcat(s3, cancel, [Finish(0, outcome)] + tail);
    if cancelled { RunOf1(s3, CallCancel); }
    var s4 := Run(s3, cancel);
    RunConcat(s4, [Finish(0, outcome)], tail);
    ExecutorLeaves(s4, outcome, cancelled);
  }

  // ---------------------------------------------------------------- the manager's methods

  class JobManager<R> {
    const store: InMemoryJobStore<R>
    var jobs: map<string, Job<R>>

    constructor (store: InMemoryJobStore<R>)
      ensures this.store == store && jobs == map[]
    {
      this.store := store;
      jobs := map[];
    }

    /** A live job and its channel. */
    ghost function Live(id: string): set<object>
      reads this, if id in jobs then {jobs[id]} else {}
    {
      if id !in jobs then {}
      else if jobs[id].done == null then {jobs[id]}
      else {jobs[id], jobs[id].done}
    }

    /** Creates, stores and registers the job; spawning its executor is the caller's next step. */
    method Submit(id: string, maxRetries: int) returns (job: Job?<R>)
      modifies this, store
      ensures id in old(store.jobs) ==> job == null && jobs == old(jobs) && store.jobs == old(store.jobs)
      ensures id !in old(store.jobs) ==>
                && job != null && fresh(job) && job.id == id && job.View() == Submitted(maxRetries)
                && jobs == old(jobs)[id := job]
                && id in store.jobs && store.jobs[id] != job && store.jobs[id].View() == job.View()
    {
      var created := new Job(id, maxRetries);
      var nil := store.Create(created);
      if !nil { return null; }
      jobs := jobs[id := created];
      job := created;
    }

    /** The store does not hold the live object itself, and holds it under its id at most. */
    ghost predicate StoresCopies(job: Job<R>)
      reads store
    {
      job.id in store.jobs ==> store.jobs[job.id] != job
    }

    /** The store holds what the job is, if it holds the job at all; errors of store calls are only reported. */
    ghost predicate StoredIfKnown(job: Job<R>)
      reads store, job, if job.id in store.jobs then {store.jobs[job.id]} else {}
    {
      job.id in store.jobs ==> store.jobs[job.id].View() == job.View()
    }

    /** What the end of an attempt leaves in the job. */
    ghost predicate EndsWith(job: Job<R>, outcome: CommandResult<R>)
      reads job
    {
      match outcome
      case Ok(result) => job.status == Completed && job.result == Some(result)
      case Err(message) => job.status == Failed && job.error == message
    }

    /**
     The body of executeJob's loop: one attempt whose command returns `outcome`; when `cancelled`, a
     Cancel of the job arrives while the command runs. The result says whether the loop continues.
     */
    method Attempt(job: Job<R>, outcome: CommandResult<R>, cancelled: bool) returns (again: bool)
      requires StoresCopies(job)
      modifies job, job.done, store
      ensures StoresCopies(job) && (job.id in store.jobs <==> job.id in old(store.jobs))
      ensures job.maxRetries == old(job.maxRetries)
      ensures again == (outcome.Err? && !cancelled && old(job.retryCount) < job.maxRetries)
      ensures job.retryCount == old(job.retryCount) + if again then 1 else 0
      ensures again ==>
                && job.done == old(job.done) && job.result == old(job.result)
                && job.status == Failed && job.error == outcome.message && StoredIfKnown(job)
      ensures !again ==> job.done != null && job.done.closed
      ensures !again && cancelled ==>
                && job.status == Cancelled && job.result == old(job.result) && job.error == old(job.error)
                && (job.id in store.jobs ==> store.jobs[job.id].status == Running)
      ensures !again && !cancelled ==> StoredIfKnown(job) && EndsWith(job, outcome)
      ensures job.id in store.jobs ==>
                AttemptLeaves(old(job.View()), outcome, cancelled, job.View(), store.jobs[job.id].View())
    {
      job.MarkRunning();
      var _ := store.Update(job);
      if cancelled { var _ := job.TryCancel(); }
      match outcome {
        case Err(message) =>
          var wasCancelled, shouldRetry := job.TryFail(message);
          if wasCancelled {
            job.MarkDone();
            return false;
          }
          if shouldRetry {
            var _ := store.Update(job);
            return true;
          }
        case Ok(result) =>
          var ok := job.TryComplete(result);
          if !ok {
            job.MarkDone();
            return false;
          }
      }
      var _ := store.Update(job);
      job.MarkDone();
      again := false;
    }

    /**
     executeJob, for any results of the command, with no other goroutine than the Cancels that
     `cancelled(i)` announces for the i-th attempt. The job is tried until the first success, until
     a Cancel, or until the retry budget is spent.
     */
    method ExecuteJob(job: Job<R>, outcomes: nat -> CommandResult<R>, cancelled: nat -> bool) returns (attempts: nat)
      requires StoresCopies(job)
      modifies job, job.done, store
      ensures attempts > 0
      ensures forall i | 0 <= i < attempts - 1 :: outcomes(i).Err? && !cancelled(i)
      ensures job.retryCount == old(job.retryCount) + attempts - 1
      ensures attempts > 1 ==> job.retryCount <= job.maxRetries
      ensures if cancelled(attempts - 1) then
                && job.status == Cancelled && job.result == old(job.result)
                && job.error == (if attempts == 1 then old(job.error) else outcomes(attempts - 2).message)
              else EndsWith(job, outcomes(attempts - 1)) && StoredIfKnown(job)
      ensures !cancelled(attempts - 1) && outcomes(attempts - 1).Err? ==> job.retryCount >= job.maxRetries
      ensures job.done != null && job.done.closed
    {
      attempts := 0;
      var again := true;
      while again
        invariant StoresCopies(job)
        invariant !again ==> attempts > 0
        invariant forall i | 0 <= i < (if again then attempts else attempts - 1) :: outcomes(i).Err? && !cancelled(i)
        invariant job.retryCount == old(job.retryCount) + (if again then attempts else attempts - 1)
        invariant job.retryCount > old(job.retryCount) ==> job.retryCount <= job.maxRetries
        invariant again ==>
                    && job.done == old(job.done) && job.result == old(job.result)
                    && job.error == (if attempts == 0 then old(job.error) else outcomes(attempts - 1).message)
        invariant !again ==>
                    && job.done != null && job.done.closed
                    && (cancelled(attempts - 1) ==>
                          && job.status == Cancelled && job.result == old(job.result)
                          && job.error == (if attempts == 1 then old(job.error) else outcomes(attempts - 2).message))
                    && (!cancelled(attempts - 1) ==> StoredIfKnown(job) && EndsWith(job, outcomes(attempts - 1)))
                    && (!cancelled(attempts - 1) && outcomes(attempts - 1).Err? ==> job.retryCount >= job.maxRetries)
        decreases again, job.maxRetries - job.retryCount
      {
        again := Attempt(job, outcomes(attempts), cancelled(attempts));
        attempts := attempts + 1;
      }
    }

    /** Cancel with no other goroutine at work. */
    method Cancel(id: string) returns (nil: bool)
      requires forall k | k in store.jobs :: store.jobs[k].id == k
      requires id in jobs ==> jobs[id].id == id
      modifies store, Live(id)
      ensures id in jobs ==>
                && jobs[id].View() == JobCore.Cancel(old(jobs[id].View())).0
                && nil == (JobCore.Cancel(old(jobs[id].View())).1 && id in old(store.jobs))
                && (JobCore.Cancel(old(jobs[id].View())).1 ==> jobs[id].done != null && jobs[id].done.closed)
                && (nil ==> id in store.jobs && store.jobs[id].View() == jobs[id].View())
      ensures id !in jobs ==>
                && nil == (id in old(store.jobs) && JobCore.Cancel(old(store.jobs[id].View())).1)
                && (nil ==> id in store.jobs && store.jobs[id].View() == JobCore.Cancel(old(store.jobs[id].View())).0)
      ensures !nil ==> store.jobs == old(store.jobs)
    {
      if id in jobs {
        var live := jobs[id];
        var ok := live.TryCancel();
        if !ok { return false; }
        live.MarkDone();
        nil := store.Update(live);
        return;
      }
      var job := store.Get(id);
      if job == null { return false; }
      var ok := job.TryCancel();
      if !ok { return false; }
      nil := store.Update(job);
    }

    /**
     Retry with no other goroutine at work: the wait for an open channel can only end with the caller's
     context. A job that only the store knows becomes a live one. When Retry returns nil, spawning an
     executor of jobs[id] is the caller's next step.
     */
    method Retry(id: string) returns (nil: bool)
      requires forall k | k in store.jobs :: store.jobs[k].id == k
      requires id in jobs ==> jobs[id].id == id
      modifies this, store, Live(id)
      ensures id in old(jobs) ==>
                var closed := old(jobs[id].done != null && jobs[id].done.closed);
                var (reset, ok) := Reset(old(jobs[id].View()));
                && jobs == old(jobs)
                && jobs[id].View() == (if closed then reset else old(jobs[id].View()))
                && nil == (closed && ok && id in old(store.jobs))
                && jobs[id].done != null
                && (closed && ok ==> fresh(jobs[id].done) && !jobs[id].done.closed)
                && (!closed ==> !jobs[id].done.closed)
      ensures id !in old(jobs) ==>
                && nil == (id in old(store.jobs) && Reset(old(store.jobs[id].View())).1)
                && (!nil ==> jobs == old(jobs))
                && (nil ==> id in jobs && fresh(jobs[id]) && jobs == old(jobs)[id := jobs[id]])
                && (nil ==> jobs[id].View() == Reset(old(store.jobs[id].View())).0)
                && (nil ==> jobs[id].done != null && !jobs[id].done.closed)
      ensures nil ==> id in store.jobs && store.jobs[id] != jobs[id] && store.jobs[id].View() == jobs[id].View()
      ensures !nil ==> store.jobs == old(store.jobs)
    {
      if id in jobs {
        var live := jobs[id];
        var signal := live.Done();
        if !signal.closed { return false; }
        var ok := live.ResetForRetry();
        if !ok { return false; }
        live.ResetDone();
        nil := store.Update(live);
        return;
      }
      var job := store.Get(id);
      if job == null { return false; }
      var ok := job.ResetForRetry();
      if !ok { return false; }
      job.ResetDone();
      nil := store.Update(job);
      if !nil { return; }
      jobs := jobs[id := job];
    }
  }
}
