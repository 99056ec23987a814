/**
 What Cancels at any time can do to a job (job/memory/job_manager.go, job/core/job.go): without a retry
 budget nothing beyond their own overwriting, with one they can let the job run twice at once and
 overwrite its result. The budget decides, and the caller of Submit chooses it.
 */
module CancelRaces {
  import opened Wrappers
  import opened JobCore
  import opened JobManager

  // ---------------------------------------------------------------- without a retry budget

  /** A goroutine that starts or is inside an attempt fits the job's status, when no retry is left. */
  predicate FitsWithoutBudget(status: Status, th: Thread) {
    status != Completed && status != Failed && (status == Pending ==> !InAttempt(th))
  }

  /** What every action keeps when no retry is left, Cancels at any time included. */
  ghost predicate OneAtMost<R>(s: State<R>) {
    && s.job.retryCount >= s.job.maxRetries
    && (forall i, j | 0 <= i < j < |s.threads| :: !(Active(s.threads[i]) && Active(s.threads[j])))
    && (forall i | 0 <= i < |s.threads| && Active(s.threads[i]) :: FitsWithoutBudget(s.job.status, s.threads[i]))
  }

  ghost predicate NoneActive<R>(s: State<R>) {
    forall i | 0 <= i < |s.threads| :: !Active(s.threads[i])
  }

  lemma OneAtMostMove<R>(s: State<R>, s': State<R>, t: nat, th: Thread)
    requires OneAtMost(s) && t < |s.threads| && s'.threads == s.threads[t := th]
    requires s'.job.retryCount == s.job.retryCount && s'.job.maxRetries == s.job.maxRetries
    requires Active(th) ==> FitsWithoutBudget(s'.job.status, th) && (Active(s.threads[t]) || NoneActive(s))
    requires s'.job.status == s.job.status || Active(s.threads[t]) || NoneActive(s)
    ensures OneAtMost(s')
  {
    forall i | 0 <= i < |s'.threads| && Active(s'.threads[i])
      ensures FitsWithoutBudget(s'.job.status, s'.threads[i])
    {
      if i != t { assert Active(s.threads[i]); }
    }
  }

  lemma EndedHasNoneActive<R>(s: State<R>)
    requires OneAtMost(s) && (s.job.status == Failed || s.job.status == Completed)
    ensures NoneActive(s)
  {
    forall i | 0 <= i < |s.threads| ensures !Active(s.threads[i]) {
      assert Active(s.threads[i]) ==> FitsWithoutBudget(s.job.status, s.threads[i]);
    }
  }

  lemma ExecutorKeepsOne<R>(s: State<R>, t: nat, storeOk: bool)
    requires OneAtMost(s) && t < |s.threads| && s.threads[t].Executor?
    ensures OneAtMost(StepExecutor(s, t, storeOk))
  {
    var s' := StepExecutor(s, t, storeOk);
    assert Active(s.threads[t]) ==> FitsWithoutBudget(s.job.status, s.threads[t]);
    if s' != s { OneAtMostMove(s, s', t, s'.threads[t]); }
  }

  lemma FinishKeepsOne<R>(s: State<R>, t: nat, outcome: CommandResult<R>)
    requires OneAtMost(s) && t < |s.threads| && s.threads[t] == Executor(Executing)
    ensures OneAtMost(FinishExecutor(s, t, outcome))
  {
    var s' := FinishExecutor(s, t, outcome);
    assert Active(s.threads[t]) && FitsWithoutBudget(s.job.status, s.threads[t]);
    OneAtMostMove(s, s', t, s'.threads[t]);
  }

  lemma RetrierKeepsOne<R>(s: State<R>, t: nat, storeOk: bool)
    requires OneAtMost(s) && t < |s.threads| && s.threads[t].Retrier?
    ensures OneAtMost(StepRetrier(s, t, storeOk))
  {
    var s' := StepRetrier(s, t, storeOk);
    assert Active(s.threads[t]) ==> FitsWithoutBudget(s.job.status, s.threads[t]);
    if s.job.status == Failed { EndedHasNoneActive(s); }
    if s.threads[t].r.Spawning? {
      var returned := At(s, t, Retrier(Returned));
      OneAtMostMove(s, returned, t, Retrier(Returned));
      assert NoneActive(returned);
    } else if s' != s {
      OneAtMostMove(s, s', t, s'.threads[t]);
    }
  }

  lemma CallsKeepOne<R>(s: State<R>)
    requires OneAtMost(s)
    ensures OneAtMost(Step(s, CallRetry)) && OneAtMost(Step(s, CallCancel))
  {
  }

  lemma OneAtMostStep<R>(s: State<R>, a: Action<R>)
    requires OneAtMost(s)
    ensures OneAtMost(Step(s, a))
  {
    var s' := Step(s, a);
    match a
    case ExecutorStep(t, storeOk) => if t < |s.threads| && s.threads[t].Executor? { ExecutorKeepsOne(s, t, storeOk); }
    case RetrierStep(t, storeOk) => if t < |s.threads| && s.threads[t].Retrier? { RetrierKeepsOne(s, t, storeOk); }
    case CancellerStep(t, _) => if s' != s { OneAtMostMove(s, s', t, s'.threads[t]); }
    case Finish(t, outcome) =>
      if t < |s.threads| && s.threads[t] == Executor(Executing) { FinishKeepsOne(s, t, outcome); }
    case GiveUp(t) => if s' != s { OneAtMostMove(s, s', t, Retrier(Returned)); }
    case CallRetry => CallsKeepOne(s);
    case CallCancel => CallsKeepOne(s);
  }

  lemma {:induction false} OneAtMostRun<R>(s: State<R>, schedule: seq<Action<R>>)
    requires OneAtMost(s)
    ensures OneAtMost(Run(s, schedule))
    decreases |schedule|
  {
    if schedule != [] {
      OneAtMostStep(s, schedule[0]);
      OneAtMostRun(Step(s, schedule[0]), schedule[1..]);
    }
  }

  // ---------------------------------------------------------------- with a retry budget

  /** One state of the run below: channel 0 closed by the Cancel. */
  function Scene<R>(
      maxRetries: int, status: Status, message: string, retryCount: int, stored: JobView<R>, done: nat,
      threads: seq<Thread>, starts: nat, executes: nat, retries: nat): State<R>
  {
    State(JobView(status, None, message, retryCount, maxRetries), stored, Some(done), {0}, done + 1,
          threads, starts, executes, retries, true)
  }

  /** A Retry waits, a Cancel of the pending job closes its channel. */
  lemma CancelReleasesRetry<R>(maxRetries: int)
    ensures Run(AfterSubmit<R>(maxRetries), [CallRetry, CallCancel, CancellerStep(2, true), RetrierStep(1, true)]) ==
              Scene(maxRetries, Cancelled, "", 0, Submitted(maxRetries), 0,
                    [Executor(Starting), Retrier(Resetting), Canceller(Storing)], 0, 0, 0)
  {
    RunOf4(AfterSubmit<R>(maxRetries), CallRetry, CallCancel, CancellerStep(2, true), RetrierStep(1, true));
    var s1 := Step(AfterSubmit<R>(maxRetries), CallRetry);
    assert s1.threads == [Executor(Starting), Retrier(Waiting(0))];
    var s2 := Step(s1, CallCancel);
    assert s2.threads == [Executor(Starting), Retrier(Waiting(0)), Canceller(Signalling)];
    var s3 := Step(s2, CancellerStep(2, true));
    assert s3.threads == [Executor(Starting), Retrier(Waiting(0)), Canceller(Storing)] && s3.closed == {0};
    assert Step(s3, RetrierStep(1, true)).threads == [Executor(Starting), Retrier(Resetting), Canceller(Storing)];
  }

  /** The executor overwrites the status, fails and is going to try again. */
  lemma ExecutorFailsOnce<R>(maxRetries: int, message: string)
    requires maxRetries > 0
    ensures var s := Scene<R>(maxRetries, Cancelled, "", 0, Submitted(maxRetries), 0,
                              [Executor(Starting), Retrier(Resetting), Canceller(Storing)], 0, 0, 0);
            Run(s, [ExecutorStep(0, true), ExecutorStep(0, true), ExecutorStep(0, true), Finish(0, Err(message))]) ==
              Scene(maxRetries, Failed, message, 1, Started(Submitted(maxRetries)), 0,
                    [Executor(Retrying), Retrier(Resetting), Canceller(Storing)], 1, 1, 0)
  {
    var s := Scene<R>(maxRetries, Cancelled, "", 0, Submitted(maxRetries), 0,
                      [Executor(Starting), Retrier(Resetting), Canceller(Storing)], 0, 0, 0);
    RunOf4(s, ExecutorStep(0, true), ExecutorStep(0, true), ExecutorStep(0, true), Finish(0, Err(message)));
    var s1 := Step(s, ExecutorStep(0, true));
    assert s1.threads == [Executor(Marked), Retrier(Resetting), Canceller(Storing)];
    var s2 := Step(s1, ExecutorStep(0, true));
    assert s2.threads == [Executor(Ready), Retrier(Resetting), Canceller(Storing)];
    var s3 := Step(s2, ExecutorStep(0, true));
    assert s3.threads == [Executor(Executing), Retrier(Resetting), Canceller(Storing)];
    assert Step(s3, Finish(0, Err(message))).threads == [Executor(Retrying), Retrier(Resetting), Canceller(Storing)];
  }

  /** The Retry finds the job failed and spawns a second executor. */
  lemma RetrySpawnsAnother<R>(maxRetries: int, message: string, stored: JobView<R>)
    ensures var s := Scene(maxRetries, Failed, message, 1, stored, 0,
                           [Executor(Retrying), Retrier(Resetting), Canceller(Storing)], 1, 1, 0);
            Run(s, [RetrierStep(1, true), RetrierStep(1, true), RetrierStep(1, true), RetrierStep(1, true)]) ==
              Scene(maxRetries, Pending, "", 1, JobView(Pending, None, "", 1, maxRetries), 1,
                    [Executor(Retrying), Retrier(Returned), Canceller(Storing), Executor(Starting)], 1, 1, 1)
  {
    var s := Scene(maxRetries, Failed, message, 1, stored, 0,
                   [Executor(Retrying), Retrier(Resetting), Canceller(Storing)], 1, 1, 0);
    RunOf4(s, RetrierStep(1, true), RetrierStep(1, true), RetrierStep(1, true), RetrierStep(1, true));
    var s1 := Step(s, RetrierStep(1, true));
    assert s1.threads == [Executor(Retrying), Retrier(Reopening), Canceller(Storing)];
    var s2 := Step(s1, RetrierStep(1, true));
    assert s2.threads == [Executor(Retrying), Retrier(Saving), Canceller(Storing)];
    var s3 := Step(s2, RetrierStep(1, true));
    assert s3.threads == [Executor(Retrying), Retrier(Spawning), Canceller(Storing)];
    assert Step(s3, RetrierStep(1, true)).threads ==
             [Executor(Retrying), Retrier(Returned), Canceller(Storing), Executor(Starting)];
  }

  lemma ExecutorAdvances<R>(s: State<R>, t: nat)
    requires t < |s.threads| && s.threads[t].Executor?
    requires s.threads[t].e == Starting || s.threads[t].e == Marked || s.threads[t].e == Ready
    ensures var e := s.threads[t].e;
            var next := if e == Starting then Marked else if e == Marked then Ready else Executing;
            && Step(s, ExecutorStep(t, true)).threads == s.threads[t := Executor(next)]
            && Step(s, ExecutorStep(t, true)).job == if e == Starting then Started(s.job) else s.job
  {
  }

  /** An executor on its way into Execute, the job's status whatever it is. */
  lemma GoesToExecute<R>(s: State<R>, t: nat)
    requires t < |s.threads| && s.threads[t] == Executor(Starting)
    ensures var s' := Run(s, [ExecutorStep(t, true), ExecutorStep(t, true)] + [ExecutorStep(t, true)]);
            s'.threads == s.threads[t := Executor(Executing)] && s'.job == Started(s.job)
  {
    var go: Action<R> := ExecutorStep(t, true);
    RunConcat(s, [go, go], [go]);
    RunOf2(s, go, go);
    ExecutorAdvances(s, t);
    ExecutorAdvances(Step(s, go), t);
    RunOf1(Step(Step(s, go), go), go);
    ExecutorAdvances(Step(Step(s, go), go), t);
  }

  function DoubleRun<R>(message: string): seq<Action<R>> {
    var zero: Action<R>, one: Action<R>, three: Action<R> :=
        ExecutorStep(0, true), RetrierStep(1, true), ExecutorStep(3, true);
    [CallRetry, CallCancel, CancellerStep(2, true), one] + ([zero, zero, zero, Finish(0, Err(message))]
    + ([one, one, one, one] + (([three, three] + [three]) + ([zero] + ([zero, zero] + [zero])))))
  }

  lemma BothGoToExecute<R>(s: State<R>)
    requires |s.threads| == 4 && s.threads[0] == Executor(Retrying) && s.threads[3] == Executor(Starting)
    ensures var zero: Action<R>, three: Action<R> := ExecutorStep(0, true), ExecutorStep(3, true);
            var s' := Run(s, ([three, three] + [three]) + ([zero] + ([zero, zero] + [zero])));
            && |s'.threads| == 4 && s'.threads[0] == Executor(Executing) && s'.threads[3] == Executor(Executing)
            && s'.job.status == Running
  {
    var zero: Action<R>, three: Action<R> := ExecutorStep(0, true), ExecutorStep(3, true);
    GoesToExecute(s, 3);
    RunConcat(s, ([three, three] + [three]), [zero] + ([zero, zero] + [zero]));
    var s1 := Run(s, ([three, three] + [three]));
    RunConcat(s1, [zero], [zero, zero] + [zero]);
    RunOf1(s1, zero);
    GoesToExecute(Step(s1, zero), 0);
  }

  /**
   With any retry budget: a Cancel of the pending job closes the channel that a Retry waits for, the
   executor overwrites the status, fails and goes on, and the Retry starts a second one. Both are inside
   Execute at the end.
   */
  lemma CancelOfAPendingJobLetsItRunTwice<R>(maxRetries: int, message: string)
    requires maxRetries > 0
    ensures var s := Run(AfterSubmit<R>(maxRetries), DoubleRun(message));
            && |s.threads| == 4 && s.threads[0] == Executor(Executing) && s.threads[3] == Executor(Executing)
            && s.job.status == Running
  {
    var zero: Action<R>, one: Action<R>, three: Action<R> :=
        ExecutorStep(0, true), RetrierStep(1, true), ExecutorStep(3, true);
    var rest4 := ([three, three] + [three]) + ([zero] + ([zero, zero] + [zero]));
    var rest3 := [one, one, one, one] + rest4;
    var rest2 := [zero, zero, zero, Finish(0, Err(message))] + rest3;
    CancelReleasesRetry<R>(maxRetries);
    RunConcat(AfterSubmit<R>(maxRetries), [CallRetry, CallCancel, CancellerStep(2, true), one], rest2);
    ExecutorFailsOnce<R>(maxRetries, message);
    var s1 := Scene<R>(maxRetries, Cancelled, "", 0, Submitted(maxRetries), 0,
                       [Executor(Starting), Retrier(Resetting), Canceller(Storing)], 0, 0, 0);
    RunConcat(s1, [zero, zero, zero, Finish(0, Err(message))], rest3);
    var stored := Started<R>(Submitted(maxRetries));
    RetrySpawnsAnother<R>(maxRetries, message, stored);
    var s2 := Scene(maxRetries, Failed, message, 1, stored, 0,
                    [Executor(Retrying), Retrier(Resetting), Canceller(Storing)], 1, 1, 0);
    RunConcat(s2, [one, one, one, one], rest4);
    BothGoToExecute(Run(s2, [one, one, one, one]));
  }

  // ---------------------------------------------------------------- the budget decides

  /** No two executors are between their spawn and their final TryFail or TryComplete. */
  ghost predicate OneLiveExecutor<R>(s: State<R>) {
    forall i, j | 0 <= i < j < |s.threads| :: !(LiveExecutor(s.threads[i]) && LiveExecutor(s.threads[j]))
  }

  /**
   Over all schedules, with any number of Retries and with Cancels at any time, at most one executor is
   ever live exactly when the job was submitted without a retry budget.
   */
  lemma AtMostOneExecutorIff<R(!new)>(maxRetries: int)
    ensures (forall schedule: seq<Action<R>> :: OneLiveExecutor(Run(AfterSubmit<R>(maxRetries), schedule)))
            <==> maxRetries <= 0
  {
    if maxRetries <= 0 {
      forall schedule: seq<Action<R>> ensures OneLiveExecutor(Run(AfterSubmit<R>(maxRetries), schedule)) {
        OneAtMostRun(AfterSubmit<R>(maxRetries), schedule);
      }
    } else {
      CancelOfAPendingJobLetsItRunTwice<R>(maxRetries, "");
      var s := Run(AfterSubmit<R>(maxRetries), DoubleRun(""));
      assert LiveExecutor(s.threads[0]) && LiveExecutor(s.threads[3]);
      assert !OneLiveExecutor(Run(AfterSubmit<R>(maxRetries), DoubleRun("")));
    }
  }

  /** Both executors inside Execute come back, the first with a result, the second with an error. */
  lemma OneCompletesOneFails<R>(s: State<R>, result: R)
    requires |s.threads| == 4 && s.threads[0] == Executor(Executing) && s.threads[3] == Executor(Executing)
    requires s.job.status == Running
    ensures var done := Step(s, Finish(0, Ok(result)));
            && done.job.status == Completed && done.job.result == Some(result)
            && Step(done, Finish(3, Err(""))).job.status == Failed
  {
    assert Step(s, Finish(0, Ok(result))).threads == s.threads[0 := Executor(Settled)];
  }

  /** The first of the two executors completes the job, the second one fails and overwrites that. */
  lemma SecondExecutorOverwrites<R>(maxRetries: int, result: R)
    requires maxRetries > 0
    ensures var before := DoubleRun<R>("") + [Finish(0, Ok(result))];
            && Run(AfterSubmit<R>(maxRetries), before).job.status == Completed
            && Run(AfterSubmit<R>(maxRetries), before).job.result == Some(result)
            && Run(AfterSubmit<R>(maxRetries), before + [Finish(3, Err(""))]).job.status == Failed
  {
    var start, done, fails := AfterSubmit<R>(maxRetries), Finish(0, Ok(result)), Finish(3, Err(""));
    var s := Run(start, DoubleRun<R>(""));
    CancelOfAPendingJobLetsItRunTwice<R>(maxRetries, "");
    RunConcat(start, DoubleRun<R>(""), [done]);
    RunOf1(s, done);
    RunConcat(start, DoubleRun<R>("") + [done], [fails]);
    RunOf1(Step(s, done), fails);
    OneCompletesOneFails(s, result);
  }

  lemma CompletedWithoutBudgetHasEnded<R>(s: State<R>)
    requires OneAtMost(s) && s.job.status == Completed
    ensures Ended(s)
  {
    EndedHasNoneActive(s);
    forall i | 0 <= i < |s.threads| ensures Restful(s.job, s.threads[i]) {
      assert !Active(s.threads[i]);
    }
  }

  /** After `before` the job, if completed, stays as it is whatever follows. */
  ghost predicate StaysCompleted<R(!new)>(maxRetries: int, before: seq<Action<R>>) {
    var s := Run(AfterSubmit<R>(maxRetries), before);
    s.job.status == Completed ==> Final(s)
  }

  /**
   Over all schedules, with Cancels at any time, Completed with its result is permanent exactly when the
   job was submitted without a retry budget. `result` is any result that a command can return.
   */
  lemma CompletedIsPermanentIff<R(!new)>(maxRetries: int, result: R)
    ensures (forall before: seq<Action<R>> :: StaysCompleted(maxRetries, before)) <==> maxRetries <= 0
  {
    if maxRetries <= 0 {
      forall before: seq<Action<R>> ensures StaysCompleted(maxRetries, before) {
        var s := Run(AfterSubmit<R>(maxRetries), before);
        OneAtMostRun(AfterSubmit<R>(maxRetries), before);
        if s.job.status == Completed {
          CompletedWithoutBudgetHasEnded(s);
          forall schedule: seq<Action<R>>
            ensures Run(s, schedule).job == s.job && Run(s, schedule).starts == s.starts
          {
            EndedForGood(s, schedule);
          }
        }
      }
    } else {
      var before := DoubleRun<R>("") + [Finish(0, Ok(result))];
      SecondExecutorOverwrites(maxRetries, result);
      RunConcat(AfterSubmit<R>(maxRetries), before, [Finish(3, Err(""))]);
      var s := Run(AfterSubmit<R>(maxRetries), before);
      assert Run(s, [Finish(3, Err(""))]).job != s.job;
      assert !StaysCompleted(maxRetries, before);
    }
  }

  // ---------------------------------------------------------------- what the fields do not tell

  /** One failed attempt of a job with one retry; the executor goes on. */
  function FailsOnce<R>(): seq<Action<R>> {
    var go: Action<R> := ExecutorStep(0, true);
    [go, go, go, Finish(0, Err(""))] + [go]
  }

  lemma FailingOnce<R>(s: State<R>)
    requires s.threads == [Executor(Starting)]
    ensures var s' := Run(s, FailsOnce<R>());
            var f := Fail(Started(s.job), "");
            && s'.job == f.job == s'.stored && s'.done == s.done && s'.closed == s.closed
            && s'.threads == [Executor(if f.shouldRetry then Starting else Closing)]
  {
    var go: Action<R> := ExecutorStep(0, true);
    RunConcat(s, [go, go, go, Finish(0, Err(""))], [go]);
    RunOf4(s, go, go, go, Finish(0, Err("")));
    var s1 := Step(s, go);
    assert s1.threads == [Executor(Marked)] && s1.job == Started(s.job);
    var s2 := Step(s1, go);
    assert s2.threads == [Executor(Ready)];
    var s3 := Step(s2, go);
    assert s3.threads == [Executor(Executing)] && s3.job == Started(s.job);
    var s4 := Step(s3, Finish(0, Err("")));
    assert s4.threads == [Executor(if Fail(s3.job, "").shouldRetry then Retrying else Settled)];
    RunOf1(s4, go);
    assert Step(s4, go).threads == [Executor(if Fail(s3.job, "").shouldRetry then Starting else Closing)];
  }

  lemma NoCancelIn<R>(s: State<R>, schedule: seq<Action<R>>)
    requires forall i | 0 <= i < |schedule| :: !schedule[i].CallCancel? && StoreWorks(schedule[i])
    ensures TimelyRun(s, schedule)
  {
    RunsWithoutCancelAreTimely(s, schedule);
  }

  /**
   A failed job whose retries are all counted and whose channel is open: the last retry may be still to
   come or over. Two runs without Cancels, with working store calls, leave the job, the store and the
   channel exactly alike, and a Cancel is final after one and not after the other.
   */
  lemma LastRetryCannotBeSeen<R(!new)>()
    ensures var s1, s2 := Run(AfterSubmit<R>(1), FailsOnce()), Run(AfterSubmit<R>(1), FailsOnce() + FailsOnce());
            && TimelyRun(AfterSubmit<R>(1), FailsOnce()) && TimelyRun(AfterSubmit<R>(1), FailsOnce() + FailsOnce())
            && s1.job == s2.job && s1.stored == s2.stored && s1.done == s2.done && s1.closed == s2.closed
            && s1.job.status == Failed && s1.job.retryCount == s1.job.maxRetries && s1.closed == {}
            && !Final(Step(s1, CallCancel)) && Final(Step(s2, CallCancel))
  {
    var start := AfterSubmit<R>(1);
    var s1, s2 := Run(start, FailsOnce()), Run(start, FailsOnce() + FailsOnce());
    NoCancelIn(start, FailsOnce());
    NoCancelIn(start, FailsOnce() + FailsOnce());
    FailingOnce(start);
    RunConcat(start, FailsOnce(), FailsOnce());
    FailingOnce(s1);
    assert AttemptAhead(s1.threads[0]);
    CancelIsFinalIff(s1);
    CancelIsFinalIff(s2);
  }
}
