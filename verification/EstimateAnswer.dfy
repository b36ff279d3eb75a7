/** What estimateAll answers and what it leaves on disk, over every interleaving:
    an error comes from a step that failed with it, a record from a measurement,
    and a failed command keeps what it recorded. */
module EstimateAnswer {
  import opened Wrappers
  import opened EstimateRecords
  import opened EstimatePipeline
  import Store = ResultsStore

  // ---------- Where an error comes from ----------

  /** The step that fails with e. */
  predicate FailsWith(s: State, step: Step, e: Failure) {
    match e
    case SaveFailed => step == Collect(SaveFails)
    case WalkFailed => step == Produce(WalkFails)
    case MeasureFailed => step.Work? && step.workerStep == MeasureFails
    case WriteFailed => step.Work? && step.workerStep == FileFails
    case FixtureMissing => step == Produce(WalkEnds) && s.missing != {}
    case BadFixture =>
      && step == Produce(WalkNext) && s.producer.Walking? && s.producer.walk != []
      && s.producer.walk[0].name in s.missing && !s.producer.walk[0].hasInput
    case Canceled => step == Produce(SendAborts)
  }

  /** Some goroutine carries the error e to the answer. */
  ghost predicate Carries(s: State, e: Failure) {
    || s.groupErr == Some(e)
    || (s.producer.ProducerLeaving? && s.producer.err == Some(e))
    || (exists i :: 0 <= i < |s.workers| && s.workers[i] == WorkerLeaving(Some(e)))
    || (s.saveFailed && e == SaveFailed)
    || s.collector == Returned(Some(e))
  }

  /** What a worker step does to the errors of the group. */
  lemma WorkerStepReports(c: Config, s: State, i: nat, step: WorkerStep)
    requires i < |s.workers| && CanWork(c, s.workers[i], s.jobsClosed, step)
    ensures var s' := Worked(c, s, i, step);
            && s'.producer == s.producer && s'.collector == s.collector && s'.saveFailed == s.saveFailed
            && |s'.workers| == |s.workers|
            && (forall j :: 0 <= j < |s.workers| && j != i ==> s'.workers[j] == s.workers[j])
            && (s'.workers[i].WorkerLeaving? ==>
                  match step
                  case MeasureFails => s'.workers[i].err == Some(MeasureFailed)
                  case FileFails => s'.workers[i].err == Some(WriteFailed)
                  case _ => s'.workers[i].err == None)
            && (s'.groupErr == s.groupErr || (s.workers[i].WorkerLeaving? && s'.groupErr == s.workers[i].err))
            && (s'.canceled == s.canceled || s'.groupErr.Some?)
  {
    hide Store.WriteTestFile;
  }

  lemma WorkCarries(c: Config, s: State, i: nat, step: WorkerStep, e: Failure)
    requires i < |s.workers| && CanWork(c, s.workers[i], s.jobsClosed, step) && Carries(Worked(c, s, i, step), e)
    ensures Carries(s, e) || FailsWith(s, Work(i, step), e)
  {
    WorkerStepReports(c, s, i, step);
    hide Worked, CanWork;
    var s' := Worked(c, s, i, step);
    if j :| 0 <= j < |s'.workers| && s'.workers[j] == WorkerLeaving(Some(e)) {
      assert j != i ==> s.workers[j] == WorkerLeaving(Some(e));
    }
  }

  lemma HandOverCarries(c: Config, s: State, step: Step, e: Failure)
    requires Enabled(c, s, step) && (step.Send? || step.Deliver?) && Carries(Apply(c, s, step), e)
    ensures Carries(s, e)
  {
    var s' := Apply(c, s, step);
    if j :| 0 <= j < |s'.workers| && s'.workers[j] == WorkerLeaving(Some(e)) {
      assert s.workers[j] == WorkerLeaving(Some(e));
    }
  }

  /** What a step of the collector does to the answer. */
  lemma CollectedAnswers(c: Config, s: State, step: CollectorStep)
    requires CanCollect(c, s, step)
    ensures var s' := Collected(c, s, step);
            && (s'.saveFailed <==> s.saveFailed || (step.SaveFails? && !s.collector.last))
            && (s'.canceled <==> s.canceled || (step.SaveFails? && !s.collector.last))
            && (s'.collector.Returned? ==>
                  s'.collector.err == if s.groupErr.None? && step.SaveFails? then Some(SaveFailed)
                                      else if s.saveFailed && step.GroupEnds? then Some(SaveFailed) else s.groupErr)
            && (step.SaveLands? && !s.collector.last ==> s'.collector.Receiving? || s'.collector == SavingMirror(false))
            && (step.SaveLands? && s.collector.last ==> s'.collector.Returned? || s'.collector == SavingMirror(true))
            && (step.SaveFails? && !s.collector.last ==> s'.collector.Receiving?)
            && (step.SaveFails? && s.collector.last ==> s'.collector.Returned?)
            && (step.GroupEnds? ==> s'.collector.Returned? || (s'.collector == SavingArtifact(true) && !s.saveFailed))
            && (step.OutcomesEnd? ==> s'.collector.Waiting?)
  {
    hide Store.WriteArtifact, Merged, CollectorRank;
  }

  lemma CollectCarries(c: Config, s: State, step: CollectorStep, e: Failure)
    requires CanCollect(c, s, step) && Carries(Collected(c, s, step), e)
    ensures Carries(s, e) || FailsWith(s, Collect(step), e)
  {
    CollectedAnswers(c, s, step);
    CollectTouchesNoOther(c, s, step);
    hide Collected, CanCollect;
  }

  /** What a producer step does to the errors of the group. */
  lemma ProducerStepReports(s: State, step: ProducerStep, e: Failure)
    requires CanProduce(s, step)
    ensures ProducerReports(s, step, Produced(s, step), e)
  {
    match step
    case WalkNext => WalkReports(s, e);
    case WalkFails => hide Walked;
    case WalkEnds => hide Walked;
    case SendAborts => hide Walked;
    case ProducerExits => hide Walked;
  }

  ghost predicate ProducerReports(s: State, step: ProducerStep, s': State, e: Failure) {
    && s'.workers == s.workers && s'.collector == s.collector && s'.saveFailed == s.saveFailed
    && (s'.producer.ProducerLeaving? && s'.producer.err == Some(e) ==> FailsWith(s, Produce(step), e))
    && (s'.groupErr == s.groupErr || (s.producer.ProducerLeaving? && s'.groupErr == s.producer.err))
  }

  lemma WalkReports(s: State, e: Failure)
    requires CanProduce(s, WalkNext)
    ensures ProducerReports(s, WalkNext, Walked(s), e)
  {
  }

  lemma ProduceCarries(s: State, step: ProducerStep, e: Failure)
    requires CanProduce(s, step) && Carries(Produced(s, step), e)
    ensures Carries(s, e) || FailsWith(s, Produce(step), e)
  {
    hide CanProduce, Produced, FailsWith;
    ProducerStepReports(s, step, e);
  }

  lemma SameCarries(s: State, s': State, e: Failure)
    requires Carries(s', e) && s'.groupErr == s.groupErr && s'.producer == s.producer && s'.workers == s.workers
    requires s'.saveFailed == s.saveFailed && s'.collector == s.collector
    ensures Carries(s, e)
  {
  }

  lemma StepCarries(c: Config, s: State, step: Step, e: Failure)
    requires Enabled(c, s, step) && Carries(Apply(c, s, step), e)
    ensures Carries(s, e) || FailsWith(s, step, e)
  {
    hide FailsWith, Carries, Collected, Worked, Produced, CanCollect, CanWork, CanProduce;
    match step
    case Work(i, workerStep) => WorkCarries(c, s, i, workerStep, e);
    case Collect(collectorStep) => CollectCarries(c, s, collectorStep, e);
    case Send(_) => HandOverCarries(c, s, step, e);
    case Deliver(_) => HandOverCarries(c, s, step, e);
    case Produce(producerStep) => ProduceCarries(s, producerStep, e);
    case ParentCancels => SameCarries(s, s.(canceled := true), e);
    case OutcomesClose => SameCarries(s, s.(outcomesClosed := true), e);
  }

  ghost predicate FailedBefore(execution: seq<State>, steps: seq<Step>, n: nat, e: Failure)
    requires n <= |steps| <= |execution|
  {
    exists k :: 0 <= k < n && FailsWith(execution[k], steps[k], e)
  }

  lemma {:induction false} CarriedMeansFailed(c: Config, execution: seq<State>, steps: seq<Step>, workers: nat,
                                              n: nat, e: Failure)
    requires IsExecution(c, execution, steps, workers) && n < |execution| && Carries(execution[n], e)
    ensures FailedBefore(execution, steps, n, e)
  {
    hide Carries, FailsWith, Apply, Enabled;
    if n == 0 {
      NothingCarried(c, execution[0], workers, e);
    } else {
      var last := n - 1;
      StepCarries(c, execution[last], steps[last], e);
      if Carries(execution[last], e) {
        CarriedMeansFailed(c, execution, steps, workers, last, e);
      }
    }
  }

  lemma NothingCarried(c: Config, s: State, workers: nat, e: Failure)
    requires Init(c, s, workers)
    ensures !Carries(s, e)
  {
  }

  /** An answer with an error comes from a step that failed with that error. */
  lemma ErrorHasItsFailure(c: Config, execution: seq<State>, steps: seq<Step>, workers: nat, n: nat, e: Failure)
    requires IsExecution(c, execution, steps, workers) && n < |execution| && execution[n].collector == Returned(Some(e))
    ensures exists k :: 0 <= k < n && FailsWith(execution[k], steps[k], e)
  {
    CarriedMeansFailed(c, execution, steps, workers, n, e);
  }

  /** A run in which no step failed answers without an error. */
  lemma UnfailedRunReturnsNil(c: Config, execution: seq<State>, steps: seq<Step>, workers: nat, n: nat)
    requires IsExecution(c, execution, steps, workers) && n < |execution| && execution[n].collector.Returned?
    requires forall k, e :: 0 <= k < n ==> !FailsWith(execution[k], steps[k], e)
    ensures execution[n].collector == Returned(None)
  {
    hide IsExecution, FailsWith;
    if execution[n].collector.err.Some? {
      ErrorHasItsFailure(c, execution, steps, workers, n, execution[n].collector.err.value);
    }
  }

  // ---------- Where a cancellation comes from ----------

  /** Without a cancellation from outside, only an error or a failed save cancels,
      and neither leaves Canceled as the answer. */
  ghost predicate Uncanceled(s: State) {
    && (s.canceled ==> s.groupErr.Some? || s.saveFailed)
    && (s.producer.ProducerLeaving? && s.producer.err == Some(Canceled) ==> s.groupErr.Some? || s.saveFailed)
    && (s.groupErr == Some(Canceled) ==> s.saveFailed)
    && (s.saveFailed ==> s.collector.Receiving? || s.collector.Waiting? || s.collector == Returned(Some(SaveFailed)))
    && s.collector != Returned(Some(Canceled))
    && (forall i :: 0 <= i < |s.workers| ==> s.workers[i] != WorkerLeaving(Some(Canceled)))
  }

  lemma WorkKeepsUncanceled(c: Config, s: State, i: nat, step: WorkerStep)
    requires i < |s.workers| && CanWork(c, s.workers[i], s.jobsClosed, step) && Uncanceled(s)
    ensures Uncanceled(Worked(c, s, i, step))
  {
    WorkerStepReports(c, s, i, step);
    hide Worked, CanWork;
    assert s.workers[i] != WorkerLeaving(Some(Canceled));
    var s' := Worked(c, s, i, step);
    forall j | 0 <= j < |s'.workers| ensures s'.workers[j] != WorkerLeaving(Some(Canceled)) {
    }
  }

  lemma ProduceKeepsUncanceled(s: State, step: ProducerStep)
    requires CanProduce(s, step) && Uncanceled(s)
    ensures Uncanceled(Produced(s, step))
  {
  }

  lemma HandOverKeepsUncanceled(c: Config, s: State, step: Step)
    requires Enabled(c, s, step) && (step.Send? || step.Deliver?) && Uncanceled(s)
    ensures Uncanceled(Apply(c, s, step))
  {
  }

  lemma CollectKeepsUncanceled(c: Config, s: State, step: CollectorStep)
    requires CanCollect(c, s, step) && Uncanceled(s)
    ensures Uncanceled(Collected(c, s, step))
  {
    CollectedAnswers(c, s, step);
    CollectTouchesNoOther(c, s, step);
    hide Collected;
  }

  lemma StepKeepsUncanceled(c: Config, s: State, step: Step)
    requires Enabled(c, s, step) && step != ParentCancels && Uncanceled(s)
    ensures Uncanceled(Apply(c, s, step))
  {
    hide Collected, Worked, Produced, CanCollect, CanWork, CanProduce;
    match step
    case Work(i, workerStep) => WorkKeepsUncanceled(c, s, i, workerStep);
    case Collect(collectorStep) => CollectKeepsUncanceled(c, s, collectorStep);
    case Send(_) => HandOverKeepsUncanceled(c, s, step);
    case Deliver(_) => HandOverKeepsUncanceled(c, s, step);
    case Produce(producerStep) => ProduceKeepsUncanceled(s, producerStep);
    case OutcomesClose => assert Uncanceled(s.(outcomesClosed := true));
  }

  lemma {:induction false} UncanceledStays(c: Config, execution: seq<State>, steps: seq<Step>, workers: nat, n: nat)
    requires IsExecution(c, execution, steps, workers) && n < |execution|
    requires !execution[0].canceled && forall k :: 0 <= k < n ==> steps[k] != ParentCancels
    ensures Uncanceled(execution[n])
  {
    hide Apply, Enabled;
    if n > 0 {
      hide Uncanceled;
      UncanceledStays(c, execution, steps, workers, n - 1);
      StepKeepsUncanceled(c, execution[n - 1], steps[n - 1]);
    }
  }

  /** estimateAll answers that it was canceled only when its caller canceled it,
      never for a failure of its own. */
  lemma CanceledByCaller(c: Config, execution: seq<State>, steps: seq<Step>, workers: nat, n: nat)
    requires IsExecution(c, execution, steps, workers) && n < |execution|
    requires execution[n].collector == Returned(Some(Canceled))
    ensures execution[0].canceled || exists k :: 0 <= k < n && steps[k] == ParentCancels
  {
    if !execution[0].canceled && forall k :: 0 <= k < n ==> steps[k] != ParentCancels {
      UncanceledStays(c, execution, steps, workers, n);
    }
  }

  // ---------- Which error is answered ----------

  ghost predicate Answers(s: State) {
    && (s.saveFailed ==> s.collector.Receiving? || s.collector.Waiting? || s.collector == Returned(Some(SaveFailed)))
    && (s.collector.Returned? && !s.saveFailed ==>
          s.collector.err == s.groupErr || (s.groupErr.None? && s.collector.err == Some(SaveFailed)))
  }

  lemma StepKeepsAnswers(c: Config, s: State, step: Step)
    requires Enabled(c, s, step) && Answers(s) && Phases(s)
    ensures Answers(Apply(c, s, step))
  {
    hide Collected, Worked, Produced, CanCollect, CanWork, CanProduce, WorkerPhase;
    match step
    case Work(i, workerStep) =>
      GoneWorkersRest(c, s, i, workerStep);
      WorkerStepReports(c, s, i, workerStep);
    case Collect(collectorStep) =>
      CollectedAnswers(c, s, collectorStep);
      CollectTouchesNoOther(c, s, collectorStep);
      CollectIsOver(c, s, collectorStep);
    case Produce(producerStep) => GoneProducerRests(s, producerStep);
    case _ =>
  }

  lemma GoneWorkersRest(c: Config, s: State, i: nat, step: WorkerStep)
    requires i < |s.workers| && CanWork(c, s.workers[i], s.jobsClosed, step) && Phases(s)
    ensures !Ending(s.collector)
  {
    assert !s.workers[i].WorkerGone?;
  }

  lemma GoneProducerRests(s: State, step: ProducerStep)
    requires CanProduce(s, step) && Phases(s)
    ensures !Ending(s.collector)
    ensures var s' := Produced(s, step); s'.collector == s.collector && s'.saveFailed == s.saveFailed
  {
    hide WorkerPhase;
  }

  lemma CollectIsOver(c: Config, s: State, step: CollectorStep)
    requires CanCollect(c, s, step)
    ensures !s.collector.Returned?
    ensures step.SaveLands? || step.SaveFails? ==> s.collector.SavingArtifact? || s.collector.SavingMirror?
  {
  }

  /** A save that fails before the group ends is the answer. Otherwise it is the
      first error of the group, and a failed last save answers only without one. */
  lemma {:induction false} AnswerIsFirstError(c: Config, execution: seq<State>, steps: seq<Step>, workers: nat, n: nat)
    requires IsExecution(c, execution, steps, workers) && n < |execution|
    ensures Answers(execution[n])
  {
    hide Apply, Enabled;
    if n > 0 {
      hide Answers;
      AnswerIsFirstError(c, execution, steps, workers, n - 1);
      ExecutionKeepsInv(c, execution, steps, workers, n - 1);
      StepKeepsAnswers(c, execution[n - 1], steps[n - 1]);
    }
  }

  // ---------- Where a record comes from ----------

  /** The outcome was received, or some worker has it. */
  ghost predicate Holds(s: State, done: Outcome) {
    || done in s.log
    || exists i :: 0 <= i < |s.workers| && (s.workers[i] == Writing(done) || s.workers[i] == Delivering(done))
  }

  predicate Measures(s: State, step: Step, done: Outcome) {
    && step.Work? && step.i < |s.workers|
    && s.workers[step.i] == Measuring(done.name) && step.workerStep == TestMeasured(done.measured)
  }

  lemma WorkHolds(c: Config, s: State, i: nat, step: WorkerStep, done: Outcome)
    requires i < |s.workers| && CanWork(c, s.workers[i], s.jobsClosed, step) && Holds(Worked(c, s, i, step), done)
    ensures Holds(s, done) || Measures(s, Work(i, step), done)
  {
    hide Store.WriteTestFile;
    var s' := Worked(c, s, i, step);
    if j :| 0 <= j < |s'.workers| && (s'.workers[j] == Writing(done) || s'.workers[j] == Delivering(done)) {
      assert j != i ==> s.workers[j] == s'.workers[j];
    }
  }

  lemma HandOverHolds(c: Config, s: State, step: Step, done: Outcome)
    requires Enabled(c, s, step) && (step.Send? || step.Deliver?) && Holds(Apply(c, s, step), done)
    ensures Holds(s, done)
  {
    var s' := Apply(c, s, step);
    assert s'.log == s.log || (step.Deliver? && s'.log == s.log + [s.workers[step.i].done]);
    if j :| 0 <= j < |s'.workers| && (s'.workers[j] == Writing(done) || s'.workers[j] == Delivering(done)) {
      assert s.workers[j] == s'.workers[j];
    }
  }

  lemma StepHolds(c: Config, s: State, step: Step, done: Outcome)
    requires Enabled(c, s, step) && Holds(Apply(c, s, step), done)
    ensures Holds(s, done) || Measures(s, step, done)
  {
    hide Collected, WorkerAfter;
    match step
    case Work(i, workerStep) => WorkHolds(c, s, i, workerStep, done);
    case Collect(collectorStep) => CollectTouchesNoOther(c, s, collectorStep);
    case Send(_) => HandOverHolds(c, s, step, done);
    case Deliver(_) => HandOverHolds(c, s, step, done);
    case Produce(_) =>
    case ParentCancels =>
    case OutcomesClose =>
  }

  /** Every received outcome is what a worker measured for the test of its name. */
  lemma {:induction false} RecordsWereMeasured(c: Config, execution: seq<State>, steps: seq<Step>, workers: nat,
                                               n: nat, done: Outcome)
    requires IsExecution(c, execution, steps, workers) && n < |execution| && Holds(execution[n], done)
    ensures exists k :: 0 <= k < n && Measures(execution[k], steps[k], done)
  {
    hide Holds, Measures, Apply, Enabled;
    if n == 0 {
      NothingHeld(c, execution[0], workers, done);
    } else {
      var last := n - 1;
      StepHolds(c, execution[last], steps[last], done);
      if Holds(execution[last], done) {
        RecordsWereMeasured(c, execution, steps, workers, last, done);
      }
    }
  }

  lemma NothingHeld(c: Config, s: State, workers: nat, done: Outcome)
    requires Init(c, s, workers)
    ensures !Holds(s, done)
  {
  }

  // ---------- What the disk holds ----------

  ghost predicate SavedUpTo(c: Config, s: State, m: nat)
    requires m <= |s.log|
  {
    forall k :: 0 <= k < m ==> OnDisk(c, s.disk, s.log[k])
  }

  /** Until a save fails, all but the outcomes since the last interval are saved,
      and after the last save all of them are. */
  ghost predicate Lags(c: Config, s: State) {
    !s.saveFailed ==>
      match s.collector
      case Receiving => SavedUpTo(c, s, |s.log| - |s.log| % PROGRESS_INTERVAL)
      case SavingArtifact(last) => last || |s.log| % PROGRESS_INTERVAL == 0
      case SavingMirror(last) => last || |s.log| % PROGRESS_INTERVAL == 0
      case Waiting => true
      case Returned(_) => s.log == [] || SavedUpTo(c, s, |s.log|)
  }

  lemma SameArtifactsSave(c: Config, s: State, s': State, m: nat)
    requires m <= |s.log| && SavedUpTo(c, s, m) && s.log <= s'.log
    requires Store.DirAt(s'.disk.estimates, c.start.id).artifact == Store.DirAt(s.disk.estimates, c.start.id).artifact
    requires Store.DirAt(s'.disk.profiles, c.start.id).artifact == Store.DirAt(s.disk.profiles, c.start.id).artifact
    ensures SavedUpTo(c, s', m)
  {
    hide HoldsOutcome;
    forall k | 0 <= k < m ensures OnDisk(c, s'.disk, s'.log[k]) {
      assert OnDisk(c, s.disk, s.log[k]);
    }
  }

  lemma SavedAllSaves(c: Config, s: State)
    requires Placed(c, s) && Filed(c, s) && SavedAll(c, s)
    ensures SavedUpTo(c, s, |s.log|)
  {
    hide Placed, Filed, SavedAll, OnDisk;
    forall k | 0 <= k < |s.log| ensures OnDisk(c, s.disk, s.log[k]) {
      ReplayHoldsOutcome(c, s, k);
      SavedHolds(c, s, s.log[k]);
    }
  }

  /** A landed save of the artifact and of the mirror, if there is one. */
  lemma LandedSavesAll(c: Config, s: State)
    requires CanCollect(c, s, SaveLands) && Saves(c, s) && c.Valid()
    requires c.start.mirror.Some? ==> s.collector.SavingMirror?
    ensures SavedAll(c, Collected(c, s, SaveLands))
  {
  }

  lemma CollectLags(c: Config, s: State, step: CollectorStep)
    requires c.Valid() && Inv(c, s) && CanCollect(c, s, step) && step != SaveFails && Lags(c, s)
    requires Inv(c, Collected(c, s, step))
    ensures Lags(c, Collected(c, s, step))
  {
    var s' := Collected(c, s, step);
    CollectTouchesNoOther(c, s, step);
    if step.SaveLands? && (c.start.mirror.Some? ==> s.collector.SavingMirror?) {
      LandedSavesAll(c, s);
      SavedAllSaves(c, s');
    }
    NothingRecorded(c, s);
    hide Placed, NoneDropped, Phases, Saves, Filed, SavedAll, SavedUpTo, Store.WriteArtifact, Merged;
  }

  /** An artifact without records has nothing logged. */
  lemma NothingRecorded(c: Config, s: State)
    requires Filed(c, s)
    ensures s.result.tests == map[] && s.result.failures == map[] ==> s.log == []
  {
    if s.log != [] {
      ReplayHolds(c.start.result, s.log, s.log[0].name);
    }
  }

  lemma DeliverLags(c: Config, s: State, i: nat)
    requires Enabled(c, s, Deliver(i)) && Lags(c, s)
    ensures Lags(c, Delivered(s, i))
  {
    var s' := Delivered(s, i);
    if !s.saveFailed {
      SameArtifactsSave(c, s, s', |s.log| - |s.log| % PROGRESS_INTERVAL);
    }
  }

  lemma WorkLags(c: Config, s: State, i: nat, step: WorkerStep)
    requires i < |s.workers| && CanWork(c, s.workers[i], s.jobsClosed, step) && Lags(c, s)
    ensures Lags(c, Worked(c, s, i, step))
  {
    hide SavedUpTo, WorkerAfter;
    var s' := Worked(c, s, i, step);
    assert s'.log == s.log && s'.collector == s.collector && s'.saveFailed == s.saveFailed;
    if s.collector.Receiving? && !s.saveFailed {
      SameArtifactsSave(c, s, s', |s.log| - |s.log| % PROGRESS_INTERVAL);
    } else if s.collector.Returned? && !s.saveFailed && s.log != [] {
      SameArtifactsSave(c, s, s', |s.log|);
    }
  }

  lemma QuietLags(c: Config, s: State, s': State)
    requires Lags(c, s) && s'.log == s.log && s'.disk == s.disk && s'.collector == s.collector
             && s'.saveFailed == s.saveFailed
    ensures Lags(c, s')
  {
  }

  lemma ProducedSame(s: State, step: ProducerStep)
    requires CanProduce(s, step)
    ensures var s' := Produced(s, step);
            s'.log == s.log && s'.disk == s.disk && s'.collector == s.collector && s'.saveFailed == s.saveFailed
  {
  }

  lemma StepLags(c: Config, s: State, step: Step)
    requires c.Valid() && Inv(c, s) && Enabled(c, s, step) && step != Collect(SaveFails) && Lags(c, s)
    requires Inv(c, Apply(c, s, step))
    ensures Lags(c, Apply(c, s, step))
  {
    hide Inv, Lags, Collected, Worked, Delivered, CanCollect, CanWork, CanProduce;
    match step
    case Work(i, workerStep) => WorkLags(c, s, i, workerStep);
    case Collect(collectorStep) => CollectLags(c, s, collectorStep);
    case Deliver(i) => DeliverLags(c, s, i);
    case Send(i) => QuietLags(c, s, Sent(s, i));
    case Produce(producerStep) =>
      ProducedSame(s, producerStep);
      QuietLags(c, s, Produced(s, producerStep));
    case ParentCancels => QuietLags(c, s, s.(canceled := true));
    case OutcomesClose => QuietLags(c, s, s.(outcomesClosed := true));
  }

  lemma {:induction false} ExecutionLags(c: Config, execution: seq<State>, steps: seq<Step>, workers: nat, n: nat)
    requires IsExecution(c, execution, steps, workers) && n < |execution|
    requires forall k :: 0 <= k < n ==> steps[k] != Collect(SaveFails)
    ensures Lags(c, execution[n])
  {
    hide Inv, Apply, Enabled;
    if n > 0 {
      hide Lags;
      var last := n - 1;
      ExecutionLags(c, execution, steps, workers, last);
      ExecutionKeepsInv(c, execution, steps, workers, last);
      ExecutionKeepsInv(c, execution, steps, workers, n);
      StepLags(c, execution[last], steps[last]);
    }
  }

  /** While no save has failed, a crash loses fewer outcomes than one interval
      holds: whenever the collector receives, all earlier ones are on disk. */
  lemma CrashLosesLessThanAnInterval(c: Config, execution: seq<State>, steps: seq<Step>, workers: nat, n: nat)
    returns (m: nat)
    requires IsExecution(c, execution, steps, workers) && n < |execution| && execution[n].collector.Receiving?
    requires forall k :: 0 <= k < n ==> steps[k] != Collect(SaveFails)
    ensures m <= |execution[n].log| < m + PROGRESS_INTERVAL
    ensures forall k :: 0 <= k < m ==> OnDisk(c, execution[n].disk, execution[n].log[k])
  {
    ExecutionLags(c, execution, steps, workers, n);
    SaveIsUnfailed(c, execution, steps, workers, n);
    m := |execution[n].log| - |execution[n].log| % PROGRESS_INTERVAL;
  }

  lemma SaveIsUnfailed(c: Config, execution: seq<State>, steps: seq<Step>, workers: nat, n: nat)
    requires IsExecution(c, execution, steps, workers) && n < |execution|
    requires forall k :: 0 <= k < n ==> steps[k] != Collect(SaveFails)
    ensures !execution[n].saveFailed
  {
    if execution[n].saveFailed {
      CarriedMeansFailed(c, execution, steps, workers, n, SaveFailed);
    }
  }

  /** Unless a save fails, every answer, an error included, leaves all that was
      recorded on disk. */
  lemma FailedRunKeepsItsRecords(c: Config, execution: seq<State>, steps: seq<Step>, workers: nat, n: nat)
    requires IsExecution(c, execution, steps, workers) && n < |execution| && execution[n].collector.Returned?
    requires forall k :: 0 <= k < n ==> steps[k] != Collect(SaveFails)
    ensures forall k :: 0 <= k < |execution[n].log| ==> OnDisk(c, execution[n].disk, execution[n].log[k])
  {
    ExecutionLags(c, execution, steps, workers, n);
    SaveIsUnfailed(c, execution, steps, workers, n);
  }
}
