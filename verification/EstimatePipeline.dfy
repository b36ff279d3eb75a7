/** The concurrent pipeline that estimates or profiles every pending test of one
    command: one producer walking the fixtures, the workers, and the collector
    that records and saves. A step is one operation of one of them. Both
    channels are unbuffered, so a send and its receive are one step. */
module EstimatePipeline {
  import opened Wrappers
  import opened EstimateRecords
  import Store = ResultsStore

  /** Estimations between two saves of the artifact. */
  const PROGRESS_INTERVAL := 50

  datatype Failure = WalkFailed | BadFixture | FixtureMissing | Canceled | MeasureFailed | WriteFailed | SaveFailed

  /** A fixture of the walk, and whether it carries an input. */
  datatype Fixture = Fixture(name: Name, hasInput: bool)

  /** Leaving is past the deferred close of the jobs channel or the deferred
      count of the workers, and ahead of the report of the error. */
  datatype Producer =
    | Walking(walk: seq<Fixture>)
    | Sending(name: Name, walk: seq<Fixture>)
    | ProducerLeaving(err: Option<Failure>)
    | ProducerGone

  datatype Worker =
    | Idle
    | Measuring(name: Name)
    | Writing(done: Outcome)
    | Delivering(done: Outcome)
    | WorkerLeaving(err: Option<Failure>)
    | WorkerGone

  /** Saving writes the artifact and then the mirror. last is the save after the
      outcomes ended. */
  datatype Collector =
    | Receiving
    | SavingArtifact(last: bool)
    | SavingMirror(last: bool)
    | Waiting
    | Returned(err: Option<Failure>)

  /** start is the command when the pipeline starts, and pending are the tests
      it still lacks. */
  datatype Config = Config(start: Store.Run, pending: set<Name>) {
    ghost predicate Valid() {
      && start.result.Disjoint() && start.result.MeasuredUnder(start.header.guest)
      && pending !! start.result.Names()
      && (start.mirror.Some? ==> start.kind.Profile?)
    }
  }

  /** log holds the outcomes received so far, so its length is the count of
      estimated tests. */
  datatype State = State(
    producer: Producer, missing: set<Name>, workers: seq<Worker>,
    jobsClosed: bool, outcomesClosed: bool,
    collector: Collector, log: seq<Outcome>, result: Records, saveFailed: bool,
    canceled: bool, groupErr: Option<Failure>, disk: Store.Disk)

  datatype ProducerStep = WalkFails | WalkNext | WalkEnds | SendAborts | ProducerExits

  datatype WorkerStep = TestMeasured(measured: Measured) | MeasureFails | FileLands | FileFails | JobsEnd | WorkerExits

  datatype CollectorStep = SaveLands | SaveFails | OutcomesEnd | GroupEnds

  /** Send hands a job to the worker i, and Deliver hands its outcome to the
      collector. */
  datatype Step =
    | ParentCancels
    | Produce(producerStep: ProducerStep)
    | Send(i: nat)
    | Work(i: nat, workerStep: WorkerStep)
    | Deliver(i: nat)
    | OutcomesClose
    | Collect(collectorStep: CollectorStep)

  /** The test a worker holds. */
  function Held(worker: Worker): Option<Name> {
    match worker
    case Measuring(name) => Some(name)
    case Writing(done) => Some(done.name)
    case Delivering(done) => Some(done.name)
    case _ => None
  }

  predicate Left(worker: Worker) {
    worker.WorkerLeaving? || worker.WorkerGone?
  }

  ghost predicate Init(c: Config, s: State, workers: nat) {
    && s.producer.Walking? && s.missing == c.pending
    && s.workers == seq(workers, _ => Idle)
    && !s.jobsClosed && !s.outcomesClosed
    && s.collector == Receiving && s.log == [] && s.result == c.start.result && !s.saveFailed
    && s.groupErr == None
  }

  function Guest(measured: Measured): EstimateRecords.Guest {
    match measured case Priced(cost) => cost.guest case Faulted(fault) => fault.guest
  }

  /** The first error of the group cancels its context. */
  function Reported(s: State, err: Option<Failure>): State {
    if err.Some? && s.groupErr.None? then s.(groupErr := err, canceled := true) else s
  }

  // ---------- The producer ----------

  predicate CanProduce(s: State, step: ProducerStep) {
    match step
    case WalkFails => s.producer.Walking?
    case WalkNext => s.producer.Walking? && s.producer.walk != []
    case WalkEnds => s.producer.Walking? && s.producer.walk == []
    case SendAborts => s.producer.Sending? && s.canceled
    case ProducerExits => s.producer.ProducerLeaving?
  }

  /** The producer closes the jobs channel as it returns. */
  function ProducerReturns(s: State, err: Option<Failure>): State {
    s.(producer := ProducerLeaving(err), jobsClosed := true)
  }

  function Walked(s: State): State
    requires s.producer.Walking? && s.producer.walk != []
  {
    var fixture, rest := s.producer.walk[0], s.producer.walk[1..];
    if fixture.name !in s.missing then s.(producer := Walking(rest))
    else if !fixture.hasInput then ProducerReturns(s, Some(BadFixture))
    else s.(producer := Sending(fixture.name, rest), missing := s.missing - {fixture.name})
  }

  function Produced(s: State, step: ProducerStep): State
    requires CanProduce(s, step)
  {
    match step
    case WalkFails => ProducerReturns(s, Some(WalkFailed))
    case WalkNext => Walked(s)
    case WalkEnds => ProducerReturns(s, if s.missing == {} then None else Some(FixtureMissing))
    case SendAborts => ProducerReturns(s, Some(Canceled))
    case ProducerExits => Reported(s, s.producer.err).(producer := ProducerGone)
  }

  // ---------- The workers ----------

  predicate CanWork(c: Config, worker: Worker, jobsClosed: bool, step: WorkerStep) {
    match step
    case TestMeasured(measured) => worker.Measuring? && Guest(measured) == c.start.header.guest
    case MeasureFails => worker.Measuring?
    case FileLands => worker.Writing? && worker.done.measured.Priced?
    case FileFails => worker.Writing?
    case JobsEnd => worker.Idle? && jobsClosed
    case WorkerExits => worker.WorkerLeaving?
  }

  function WorkerAfter(c: Config, worker: Worker, jobsClosed: bool, step: WorkerStep): Worker
    requires CanWork(c, worker, jobsClosed, step)
  {
    match step
    case TestMeasured(measured) =>
      var done := Outcome(worker.name, measured);
      if c.start.kind.Profile? && measured.Priced? then Writing(done) else Delivering(done)
    case MeasureFails => WorkerLeaving(Some(MeasureFailed))
    case FileLands => Delivering(worker.done)
    case FileFails => WorkerLeaving(Some(WriteFailed))
    case JobsEnd => WorkerLeaving(None)
    case WorkerExits => WorkerGone
  }

  /** A test file lands before the outcome that names it is delivered. */
  function Worked(c: Config, s: State, i: nat, step: WorkerStep): State
    requires i < |s.workers| && CanWork(c, s.workers[i], s.jobsClosed, step)
  {
    var worker := s.workers[i];
    var moved := s.(workers := s.workers[i := WorkerAfter(c, worker, s.jobsClosed, step)]);
    match step
    case FileLands =>
      moved.(disk := Store.WriteTestFile(s.disk, c.start.id, worker.done.name, worker.done.measured.cost))
    case WorkerExits => Reported(moved, worker.err)
    case _ => moved
  }

  // ---------- The collector ----------

  predicate CanCollect(c: Config, s: State, step: CollectorStep) {
    match step
    case SaveLands => s.collector.SavingArtifact? || (s.collector.SavingMirror? && c.start.mirror.Some?)
    case SaveFails => s.collector.SavingArtifact? || s.collector.SavingMirror?
    case OutcomesEnd => s.collector.Receiving? && s.outcomesClosed
    case GroupEnds =>
      s.collector.Waiting? && s.producer.ProducerGone? && forall i :: 0 <= i < |s.workers| ==> s.workers[i].WorkerGone?
  }

  /** The collector records every outcome, and saves at every interval until a
      save fails. */
  function Received(s: State, done: Outcome): State {
    var log := s.log + [done];
    var saves := !s.saveFailed && |log| % PROGRESS_INTERVAL == 0;
    s.(log := log, result := Recorded(s.result, done), collector := if saves then SavingArtifact(false) else Receiving)
  }

  function AfterSave(s: State, last: bool): Collector {
    if last then Returned(s.groupErr) else Receiving
  }

  /** A save writes the artifact and then, of a profile, the mirror. A failure
      ends the saves and cancels the group. */
  ghost function Collected(c: Config, s: State, step: CollectorStep): State
    requires CanCollect(c, s, step)
  {
    match step
    case SaveLands =>
      if s.collector.SavingArtifact? then
        s.(disk := Store.WriteArtifact(s.disk, c.start.kind, c.start.id, Artifact(c.start.header, s.result)),
           collector := if c.start.mirror.Some? then SavingMirror(s.collector.last) else AfterSave(s, s.collector.last))
      else
        s.(disk := Store.WriteArtifact(s.disk, Store.Estimate, c.start.id,
          Artifact(c.start.header, Merged(c.start.mirror.value, s.result))),
           collector := AfterSave(s, s.collector.last))
    case SaveFails =>
      if s.collector.last then s.(collector := Returned(if s.groupErr.Some? then s.groupErr else Some(SaveFailed)))
      else s.(saveFailed := true, canceled := true, collector := Receiving)
    case OutcomesEnd => s.(collector := Waiting)
    case GroupEnds =>
      if s.saveFailed then s.(collector := Returned(Some(SaveFailed)))
      else if s.result.tests == map[] && s.result.failures == map[] then s.(collector := Returned(s.groupErr))
      else s.(collector := SavingArtifact(true))
  }

  // ---------- The steps together ----------

  predicate Enabled(c: Config, s: State, step: Step) {
    match step
    case ParentCancels => !s.canceled
    case Produce(producerStep) => CanProduce(s, producerStep)
    case Send(i) => s.producer.Sending? && i < |s.workers| && s.workers[i].Idle?
    case Work(i, workerStep) => i < |s.workers| && CanWork(c, s.workers[i], s.jobsClosed, workerStep)
    case Deliver(i) => i < |s.workers| && s.workers[i].Delivering? && s.collector.Receiving?
    case OutcomesClose => !s.outcomesClosed && forall i :: 0 <= i < |s.workers| ==> Left(s.workers[i])
    case Collect(collectorStep) => CanCollect(c, s, collectorStep)
  }

  function Sent(s: State, i: nat): State
    requires s.producer.Sending? && i < |s.workers|
  {
    s.(producer := Walking(s.producer.walk), workers := s.workers[i := Measuring(s.producer.name)])
  }

  function Delivered(s: State, i: nat): State
    requires i < |s.workers| && s.workers[i].Delivering?
  {
    Received(s.(workers := s.workers[i := Idle]), s.workers[i].done)
  }

  ghost function Apply(c: Config, s: State, step: Step): State
    requires Enabled(c, s, step)
  {
    match step
    case ParentCancels => s.(canceled := true)
    case Produce(producerStep) => Produced(s, producerStep)
    case Send(i) => Sent(s, i)
    case Work(i, workerStep) => Worked(c, s, i, workerStep)
    case Deliver(i) => Delivered(s, i)
    case OutcomesClose => s.(outcomesClosed := true)
    case Collect(collectorStep) => Collected(c, s, collectorStep)
  }

  /** The states that a sequence of steps passes through. */
  ghost predicate IsExecution(c: Config, execution: seq<State>, steps: seq<Step>, workers: nat) {
    && c.Valid() && |execution| == |steps| + 1 && Init(c, execution[0], workers)
    && forall i :: 0 <= i < |steps| ==>
         Enabled(c, execution[i], steps[i]) && execution[i + 1] == Apply(c, execution[i], steps[i])
  }

  // ---------- What every state keeps ----------

  ghost predicate Logged(s: State, name: Name) {
    exists k :: 0 <= k < |s.log| && s.log[k].name == name
  }

  /** No test is at two places of the pipeline. */
  ghost predicate Placed(c: Config, s: State) {
    && s.missing <= c.pending
    && (s.producer.Sending? ==>
          s.producer.name in c.pending && s.producer.name !in s.missing && !Logged(s, s.producer.name))
    && (forall i :: 0 <= i < |s.workers| && Held(s.workers[i]).Some? ==> HeldOnce(c, s, i, Held(s.workers[i]).value))
    && (forall j, k :: 0 <= j < k < |s.log| ==> s.log[j].name != s.log[k].name)
    && (forall k :: 0 <= k < |s.log| ==> s.log[k].name in c.pending && s.log[k].name !in s.missing)
  }

  ghost predicate HeldOnce(c: Config, s: State, i: nat, name: Name) {
    && name in c.pending && name !in s.missing && !Logged(s, name)
    && (s.producer.Sending? ==> s.producer.name != name)
    && (forall j :: 0 <= j < |s.workers| && j != i ==> Held(s.workers[j]) != Some(name))
  }

  /** Some goroutine has failed. */
  ghost predicate Broken(s: State) {
    || s.groupErr.Some?
    || (s.producer.ProducerLeaving? && s.producer.err.Some?)
    || (exists i :: 0 <= i < |s.workers| && s.workers[i].WorkerLeaving? && s.workers[i].err.Some?)
  }

  ghost predicate Somewhere(s: State, name: Name) {
    || name in s.missing
    || (s.producer.Sending? && s.producer.name == name)
    || (exists i :: 0 <= i < |s.workers| && Held(s.workers[i]) == Some(name))
    || Logged(s, name)
  }

  /** Only a failure drops a test. */
  ghost predicate NoneDropped(c: Config, s: State) {
    !Broken(s) ==> forall name :: name in c.pending ==> Somewhere(s, name)
  }

  ghost predicate Phases(s: State) {
    && (s.jobsClosed <==> s.producer.ProducerLeaving? || s.producer.ProducerGone?)
    && (s.producer.ProducerLeaving? && s.producer.err.None? ==> s.missing == {})
    && (s.producer.ProducerGone? && s.groupErr.None? ==> s.missing == {})
    && (forall i :: 0 <= i < |s.workers| ==> WorkerPhase(s, s.workers[i]))
    && (s.groupErr.Some? ==> s.canceled)
    && (Ending(s.collector) || s.collector.Waiting? ==> s.outcomesClosed)
    && (Ending(s.collector) ==>
          s.producer.ProducerGone? && forall i :: 0 <= i < |s.workers| ==> s.workers[i].WorkerGone?)
  }

  /** The collector is past the end of the group. */
  predicate Ending(collector: Collector) {
    match collector
    case SavingArtifact(last) => last
    case SavingMirror(last) => last
    case Returned(_) => true
    case _ => false
  }

  ghost predicate WorkerPhase(s: State, worker: Worker) {
    && (worker.WorkerLeaving? && worker.err.None? ==> s.jobsClosed)
    && (worker.WorkerGone? ==> s.jobsClosed || s.groupErr.Some?)
    && (s.outcomesClosed ==> Left(worker))
    && (worker.Writing? ==> worker.done.measured.Priced?)
  }

  /** What the saves have left on disk once the pipeline returned. */
  ghost predicate SavedAll(c: Config, s: State) {
    var dirs := s.disk.Of(c.start.kind);
    && c.start.id in dirs && dirs[c.start.id].artifact == Some(Artifact(c.start.header, s.result))
    && (c.start.mirror.Some? ==>
          c.start.id in s.disk.estimates
          && s.disk.estimates[c.start.id].artifact
             == Some(Artifact(c.start.header, Merged(c.start.mirror.value, s.result))))
  }

  ghost predicate Saves(c: Config, s: State) {
    && (s.collector == Returned(None) ==> s.groupErr.None? && (s.result == NO_RECORDS || SavedAll(c, s)))
    && (s.collector.SavingMirror? ==>
          c.start.mirror.Some?
          && c.start.id in s.disk.Of(c.start.kind)
          && s.disk.Of(c.start.kind)[c.start.id].artifact == Some(Artifact(c.start.header, s.result)))
  }

  /** The artifact in memory is the starting one with the log recorded in it. */
  ghost predicate Filed(c: Config, s: State) {
    && s.result == Replayed(c.start.result, s.log)
    && (forall k :: 0 <= k < |s.log| ==> Guest(s.log[k].measured) == c.start.header.guest)
    && (forall i :: 0 <= i < |s.workers| && (s.workers[i].Writing? || s.workers[i].Delivering?) ==>
          Guest(s.workers[i].done.measured) == c.start.header.guest)
    && (forall i :: 0 <= i < |s.workers| && s.workers[i].Writing? ==> c.start.kind.Profile?)
  }

  ghost function Replayed(base: Records, log: seq<Outcome>): Records {
    if log == [] then base else Recorded(Replayed(base, log[..|log| - 1]), log[|log| - 1])
  }

  ghost predicate Inv(c: Config, s: State) {
    Placed(c, s) && NoneDropped(c, s) && Phases(s) && Saves(c, s) && Filed(c, s)
  }

  /** Nothing takes a test to a new place between the two states. */
  ghost predicate NothingMoves(s: State, s': State) {
    && s'.missing == s.missing && s'.log == s.log && |s'.workers| == |s.workers|
    && (s'.producer.Sending? ==> s.producer.Sending? && s'.producer.name == s.producer.name)
    && (forall i :: 0 <= i < |s.workers| ==> Held(s'.workers[i]) == Held(s.workers[i]) || Held(s'.workers[i]) == None)
  }

  lemma NothingMovesKeepsPlaced(c: Config, s: State, s': State)
    requires Placed(c, s) && NothingMoves(s, s')
    ensures Placed(c, s')
  {
    forall i | 0 <= i < |s'.workers| && Held(s'.workers[i]).Some?
      ensures HeldOnce(c, s', i, Held(s'.workers[i]).value)
    {
      assert HeldOnce(c, s, i, Held(s.workers[i]).value);
    }
  }

  lemma WalkKeepsPlaced(c: Config, s: State)
    requires Placed(c, s) && CanProduce(s, WalkNext)
    ensures Placed(c, Walked(s))
  {
    var s' := Walked(s);
    forall i | 0 <= i < |s'.workers| && Held(s'.workers[i]).Some?
      ensures HeldOnce(c, s', i, Held(s'.workers[i]).value)
    {
      assert HeldOnce(c, s, i, Held(s.workers[i]).value);
    }
  }

  lemma SendKeepsPlaced(c: Config, s: State, i: nat)
    requires Placed(c, s) && Enabled(c, s, Send(i))
    ensures Placed(c, Sent(s, i))
  {
    var s' := Sent(s, i);
    forall j | 0 <= j < |s'.workers| && Held(s'.workers[j]).Some?
      ensures HeldOnce(c, s', j, Held(s'.workers[j]).value)
    {
      if j != i { assert HeldOnce(c, s, j, Held(s.workers[j]).value); }
    }
  }

  lemma DeliverKeepsPlaced(c: Config, s: State, i: nat)
    requires Placed(c, s) && Enabled(c, s, Deliver(i))
    ensures Placed(c, Delivered(s, i))
  {
    var s' := Delivered(s, i);
    assert HeldOnce(c, s, i, s.workers[i].done.name);
    forall j | 0 <= j < |s'.workers| && Held(s'.workers[j]).Some?
      ensures HeldOnce(c, s', j, Held(s'.workers[j]).value)
    {
      assert HeldOnce(c, s, j, Held(s.workers[j]).value);
    }
  }

  lemma ProduceMovesNothing(s: State, step: ProducerStep)
    requires CanProduce(s, step) && !step.WalkNext?
    ensures NothingMoves(s, Produced(s, step))
  {
  }

  lemma WorkMovesNothing(c: Config, s: State, i: nat, step: WorkerStep)
    requires i < |s.workers| && CanWork(c, s.workers[i], s.jobsClosed, step)
    ensures NothingMoves(s, Worked(c, s, i, step))
  {
  }

  /** The collector's own steps touch neither the producer nor the workers. */
  lemma CollectTouchesNoOther(c: Config, s: State, step: CollectorStep)
    requires CanCollect(c, s, step)
    ensures var s' := Collected(c, s, step);
            && s'.producer == s.producer && s'.missing == s.missing && s'.workers == s.workers
            && s'.jobsClosed == s.jobsClosed && s'.outcomesClosed == s.outcomesClosed
            && s'.log == s.log && s'.result == s.result && s'.groupErr == s.groupErr
            && (s.canceled ==> s'.canceled)
            && CollectorRank(s'.collector) < CollectorRank(s.collector)
  {
    hide Store.WriteArtifact, Merged, WorkersRank;
  }

  lemma StepKeepsPlaced(c: Config, s: State, step: Step)
    requires Placed(c, s) && Enabled(c, s, step)
    ensures Placed(c, Apply(c, s, step))
  {
    match step
    case Produce(producerStep) =>
      if producerStep.WalkNext? {
        WalkKeepsPlaced(c, s);
      } else {
        ProduceMovesNothing(s, producerStep);
        NothingMovesKeepsPlaced(c, s, Produced(s, producerStep));
      }
    case Send(i) => SendKeepsPlaced(c, s, i);
    case Deliver(i) => DeliverKeepsPlaced(c, s, i);
    case Work(i, workerStep) =>
      WorkMovesNothing(c, s, i, workerStep);
      NothingMovesKeepsPlaced(c, s, Worked(c, s, i, workerStep));
    case Collect(collectorStep) =>
      CollectTouchesNoOther(c, s, collectorStep);
      NothingMovesKeepsPlaced(c, s, Collected(c, s, collectorStep));
    case ParentCancels => NothingMovesKeepsPlaced(c, s, s.(canceled := true));
    case OutcomesClose => NothingMovesKeepsPlaced(c, s, s.(outcomesClosed := true));
  }

  /** A failure stays reported. */
  lemma BrokenStays(c: Config, s: State, step: Step)
    requires Broken(s) && Enabled(c, s, step)
    ensures Broken(Apply(c, s, step))
  {
    match step
    case Produce(producerStep) => WorkersStayBroken(s, Produced(s, producerStep));
    case Work(i, workerStep) => WorkStaysBroken(c, s, i, workerStep);
    case Send(i) => HandOverStaysBroken(s, Sent(s, i), i);
    case Deliver(i) => HandOverStaysBroken(s, Delivered(s, i), i);
    case Collect(collectorStep) =>
      CollectTouchesNoOther(c, s, collectorStep);
      WorkersStayBroken(s, Collected(c, s, collectorStep));
    case ParentCancels => WorkersStayBroken(s, s.(canceled := true));
    case OutcomesClose => WorkersStayBroken(s, s.(outcomesClosed := true));
  }

  lemma WorkersStayBroken(s: State, s': State)
    requires Broken(s) && s'.workers == s.workers
    requires s.groupErr.Some? || (s.producer.ProducerLeaving? && s.producer.err.Some?) ==>
               s'.groupErr.Some? || (s'.producer.ProducerLeaving? && s'.producer.err.Some?)
    ensures Broken(s')
  {
  }

  lemma HandOverStaysBroken(s: State, s': State, i: nat)
    requires Broken(s) && i < |s.workers| && |s'.workers| == |s.workers| && !s.workers[i].WorkerLeaving?
    requires s'.groupErr == s.groupErr && (s.producer.ProducerLeaving? ==> s'.producer == s.producer)
    requires forall j :: 0 <= j < |s.workers| && j != i ==> s'.workers[j] == s.workers[j]
    ensures Broken(s')
  {
    if j :| 0 <= j < |s.workers| && s.workers[j].WorkerLeaving? && s.workers[j].err.Some? {
      assert s'.workers[j] == s.workers[j];
    }
  }

  lemma WorkStaysBroken(c: Config, s: State, i: nat, step: WorkerStep)
    requires Broken(s) && i < |s.workers| && CanWork(c, s.workers[i], s.jobsClosed, step)
    ensures Broken(Worked(c, s, i, step))
  {
    if j :| 0 <= j < |s.workers| && s.workers[j].WorkerLeaving? && s.workers[j].err.Some? {
      assert j != i ==> Worked(c, s, i, step).workers[j] == s.workers[j];
    }
  }

  lemma FailureBreaks(c: Config, s: State, i: nat, step: WorkerStep)
    requires Enabled(c, s, Work(i, step)) && (step.MeasureFails? || step.FileFails?)
    ensures Broken(Worked(c, s, i, step))
  {
    assert Worked(c, s, i, step).workers[i].WorkerLeaving?;
  }

  /** A worker step drops no test unless it fails. */
  lemma HeldAfterWork(c: Config, s: State, i: nat, step: WorkerStep, j: nat, name: Name)
    requires Enabled(c, s, Work(i, step)) && !Broken(Worked(c, s, i, step))
    requires j < |s.workers| && Held(s.workers[j]) == Some(name)
    ensures Held(Worked(c, s, i, step).workers[j]) == Some(name)
  {
    if j == i && (step.MeasureFails? || step.FileFails?) {
      FailureBreaks(c, s, i, step);
    }
  }

  /** A test stays somewhere when the log only grows, and every test in the hand
      of the producer or of a worker stays there or moves on. */
  lemma SomewhereStays(s: State, s': State, name: Name)
    requires Somewhere(s, name) && s.log <= s'.log && |s'.workers| == |s.workers|
    requires name in s.missing ==> Somewhere(s', name)
    requires s.producer.Sending? && s.producer.name == name ==> Somewhere(s', name)
    requires forall j :: 0 <= j < |s.workers| && Held(s.workers[j]) == Some(name) ==>
             Held(s'.workers[j]) == Some(name) || Logged(s', name)
    ensures Somewhere(s', name)
  {
  }

  lemma SomewhereAfterWork(c: Config, s: State, i: nat, step: WorkerStep, name: Name)
    requires Enabled(c, s, Work(i, step)) && !Broken(Worked(c, s, i, step)) && Somewhere(s, name)
    ensures Somewhere(Worked(c, s, i, step), name)
  {
    WorkMovesNothing(c, s, i, step);
    forall j | 0 <= j < |s.workers| && Held(s.workers[j]) == Some(name)
      ensures Held(Worked(c, s, i, step).workers[j]) == Some(name)
    {
      HeldAfterWork(c, s, i, step, j, name);
    }
    SomewhereStays(s, Worked(c, s, i, step), name);
  }

  lemma SomewhereAfterHandOver(c: Config, s: State, step: Step, name: Name)
    requires Enabled(c, s, step) && (step.Send? || step.Deliver?) && Somewhere(s, name)
    ensures Somewhere(Apply(c, s, step), name)
  {
    match step
    case Send(i) =>
      assert s.producer.name == name ==> Held(Sent(s, i).workers[i]) == Some(name);
      SomewhereStays(s, Sent(s, i), name);
    case Deliver(i) =>
      assert Delivered(s, i).log[|s.log|] == s.workers[i].done;
      SomewhereStays(s, Delivered(s, i), name);
  }

  lemma SomewhereAfter(c: Config, s: State, step: Step, name: Name)
    requires Enabled(c, s, step) && !Broken(Apply(c, s, step)) && Somewhere(s, name)
    ensures Somewhere(Apply(c, s, step), name)
  {
    match step
    case Produce(producerStep) => SomewhereStays(s, Produced(s, producerStep), name);
    case Work(i, workerStep) => SomewhereAfterWork(c, s, i, workerStep, name);
    case Send(_) => SomewhereAfterHandOver(c, s, step, name);
    case Deliver(_) => SomewhereAfterHandOver(c, s, step, name);
    case Collect(collectorStep) =>
      CollectTouchesNoOther(c, s, collectorStep);
      SomewhereStays(s, Collected(c, s, collectorStep), name);
    case ParentCancels => SomewhereStays(s, s.(canceled := true), name);
    case OutcomesClose => SomewhereStays(s, s.(outcomesClosed := true), name);
  }

  lemma StepKeepsNoneDropped(c: Config, s: State, step: Step)
    requires NoneDropped(c, s) && Enabled(c, s, step)
    ensures NoneDropped(c, Apply(c, s, step))
  {
    var s' := Apply(c, s, step);
    if !Broken(s') {
      if Broken(s) { BrokenStays(c, s, step); }
      forall name | name in c.pending ensures Somewhere(s', name) {
        SomewhereAfter(c, s, step, name);
      }
    }
  }

  lemma ProduceKeepsPhases(s: State, step: ProducerStep)
    requires Phases(s) && CanProduce(s, step)
    ensures Phases(Produced(s, step))
  {
    forall i | 0 <= i < |s.workers| ensures WorkerPhase(Produced(s, step), s.workers[i]) {
      assert WorkerPhase(s, s.workers[i]);
    }
  }

  lemma WorkKeepsPhases(c: Config, s: State, i: nat, step: WorkerStep)
    requires Phases(s) && Enabled(c, s, Work(i, step))
    ensures Phases(Worked(c, s, i, step))
  {
    var s' := Worked(c, s, i, step);
    forall j | 0 <= j < |s'.workers| ensures WorkerPhase(s', s'.workers[j]) {
      assert WorkerPhase(s, s.workers[j]);
    }
  }

  lemma HandOverKeepsPhases(c: Config, s: State, step: Step)
    requires Phases(s) && Enabled(c, s, step) && (step.Send? || step.Deliver?)
    ensures Phases(Apply(c, s, step))
  {
    var s' := Apply(c, s, step);
    assert WorkerPhase(s, s.workers[step.i]);
    forall j | 0 <= j < |s'.workers| ensures WorkerPhase(s', s'.workers[j]) {
      assert WorkerPhase(s, s.workers[j]);
    }
  }

  lemma CollectKeepsPhases(c: Config, s: State, step: CollectorStep)
    requires Phases(s) && CanCollect(c, s, step)
    ensures Phases(Collected(c, s, step))
  {
    forall j | 0 <= j < |s.workers| ensures WorkerPhase(Collected(c, s, step), s.workers[j]) {
      assert WorkerPhase(s, s.workers[j]);
    }
  }

  lemma StepKeepsPhases(c: Config, s: State, step: Step)
    requires Phases(s) && Enabled(c, s, step)
    ensures Phases(Apply(c, s, step))
  {
    match step
    case Produce(producerStep) => ProduceKeepsPhases(s, producerStep);
    case Work(i, workerStep) => WorkKeepsPhases(c, s, i, workerStep);
    case Collect(collectorStep) => CollectKeepsPhases(c, s, collectorStep);
    case Send(_) => HandOverKeepsPhases(c, s, step);
    case Deliver(_) => HandOverKeepsPhases(c, s, step);
    case _ =>
      forall j | 0 <= j < |s.workers| ensures WorkerPhase(Apply(c, s, step), s.workers[j]) {
        assert WorkerPhase(s, s.workers[j]);
      }
  }

  lemma CollectKeepsSaves(c: Config, s: State, step: CollectorStep)
    requires c.Valid() && Saves(c, s) && CanCollect(c, s, step)
    ensures Saves(c, Collected(c, s, step))
  {
  }

  lemma WorkKeepsSaves(c: Config, s: State, i: nat, step: WorkerStep)
    requires Phases(s) && Saves(c, s) && Enabled(c, s, Work(i, step))
    ensures Saves(c, Worked(c, s, i, step))
  {
    hide WorkerAfter, Merged;
    assert !s.workers[i].WorkerGone?;
  }

  lemma StepKeepsSaves(c: Config, s: State, step: Step)
    requires c.Valid() && Phases(s) && Saves(c, s) && Enabled(c, s, step)
    ensures Saves(c, Apply(c, s, step))
  {
    hide Store.WriteArtifact, Merged, Collected, WorkerAfter, Replayed;
    match step
    case Collect(collectorStep) => CollectKeepsSaves(c, s, collectorStep);
    case Work(i, workerStep) => WorkKeepsSaves(c, s, i, workerStep);
    case _ =>
  }

  /** Only an outcome with a test file to write is being written, and every
      outcome was measured under the guest of the command. */
  lemma WorkKeepsFiled(c: Config, s: State, i: nat, step: WorkerStep)
    requires Filed(c, s) && Enabled(c, s, Work(i, step))
    ensures Filed(c, Worked(c, s, i, step))
  {
    var worker := WorkerAfter(c, s.workers[i], s.jobsClosed, step);
    assert worker.Writing? || worker.Delivering? ==> Guest(worker.done.measured) == c.start.header.guest;
    assert Worked(c, s, i, step).log == s.log && Worked(c, s, i, step).result == s.result;
    assert Worked(c, s, i, step).workers == s.workers[i := worker];
  }

  lemma DeliverKeepsFiled(c: Config, s: State, i: nat)
    requires Filed(c, s) && Enabled(c, s, Deliver(i))
    ensures Filed(c, Delivered(s, i))
  {
    hide Replayed, Recorded;
    var s' := Delivered(s, i);
    ReplayedOneMore(c.start.result, s.log, s.workers[i].done);
    assert s'.log == s.log + [s.workers[i].done];
  }

  lemma ReplayedOneMore(base: Records, log: seq<Outcome>, done: Outcome)
    ensures Replayed(base, log + [done]) == Recorded(Replayed(base, log), done)
  {
    assert (log + [done])[..|log|] == log;
  }

  /** A step that records nothing and gives no worker an outcome. */
  lemma NothingFiledKeepsFiled(c: Config, s: State, s': State)
    requires Filed(c, s) && s'.log == s.log && s'.result == s.result && |s'.workers| == |s.workers|
    requires forall i :: 0 <= i < |s.workers| ==> s'.workers[i] == s.workers[i] || s'.workers[i].Measuring?
    ensures Filed(c, s')
  {
  }

  lemma StepKeepsFiled(c: Config, s: State, step: Step)
    requires Filed(c, s) && Enabled(c, s, step)
    ensures Filed(c, Apply(c, s, step))
  {
    hide Filed, Collected, WorkerAfter, Recorded, Merged, Store.WriteTestFile;
    match step
    case Work(i, workerStep) => WorkKeepsFiled(c, s, i, workerStep);
    case Deliver(i) => DeliverKeepsFiled(c, s, i);
    case Send(i) => NothingFiledKeepsFiled(c, s, Sent(s, i));
    case Produce(producerStep) => NothingFiledKeepsFiled(c, s, Produced(s, producerStep));
    case Collect(collectorStep) =>
      CollectTouchesNoOther(c, s, collectorStep);
      NothingFiledKeepsFiled(c, s, Collected(c, s, collectorStep));
    case ParentCancels => NothingFiledKeepsFiled(c, s, s.(canceled := true));
    case OutcomesClose => NothingFiledKeepsFiled(c, s, s.(outcomesClosed := true));
  }

  lemma StepKeepsInv(c: Config, s: State, step: Step, s': State)
    requires c.Valid() && Inv(c, s) && Enabled(c, s, step) && s' == Apply(c, s, step)
    ensures Inv(c, s') && |s'.workers| == |s.workers|
  {
    StepKeepsPlaced(c, s, step);
    StepKeepsNoneDropped(c, s, step);
    StepKeepsPhases(c, s, step);
    StepKeepsSaves(c, s, step);
    StepKeepsFiled(c, s, step);
    StepKeepsCount(c, s, step);
  }

  lemma StepKeepsCount(c: Config, s: State, step: Step)
    requires Enabled(c, s, step)
    ensures |Apply(c, s, step).workers| == |s.workers|
  {
    match step
    case Collect(collectorStep) => CollectTouchesNoOther(c, s, collectorStep);
    case Work(i, workerStep) => WorkMovesNothing(c, s, i, workerStep);
    case _ =>
  }

  lemma StartHasInv(c: Config, s: State, workers: nat)
    requires Init(c, s, workers)
    ensures Inv(c, s) && |s.workers| == workers
  {
    forall i | 0 <= i < |s.workers| ensures WorkerPhase(s, s.workers[i]) {
    }
  }

  lemma {:induction false} ExecutionKeepsInv(c: Config, execution: seq<State>, steps: seq<Step>, workers: nat, n: nat)
    requires IsExecution(c, execution, steps, workers) && n < |execution|
    ensures Inv(c, execution[n]) && |execution[n].workers| == workers
  {
    if n == 0 {
      StartHasInv(c, execution[0], workers);
    } else {
      ExecutionKeepsInv(c, execution, steps, workers, n - 1);
      StepKeepsInv(c, execution[n - 1], steps[n - 1], execution[n]);
    }
  }

  // ---------- Progress ----------

  function WorkerRank(worker: Worker): nat {
    match worker
    case Idle => 2 case Measuring(_) => 8 case Writing(_) => 7 case Delivering(_) => 6
    case WorkerLeaving(_) => 1 case WorkerGone => 0
  }

  function WorkersRank(workers: seq<Worker>): nat {
    if workers == [] then 0 else WorkerRank(workers[0]) + WorkersRank(workers[1..])
  }

  function ProducerRank(producer: Producer): nat {
    match producer
    case Walking(walk) => 10 * |walk| + 3
    case Sending(_, walk) => 10 * |walk| + 12
    case ProducerLeaving(_) => 1 case ProducerGone => 0
  }

  function CollectorRank(collector: Collector): nat {
    match collector
    case SavingArtifact(last) => if last then 2 else 6
    case SavingMirror(last) => if last then 1 else 5
    case Receiving => 4 case Waiting => 3 case Returned(_) => 0
  }

  /** The steps that are left, at most. */
  function Rank(s: State): nat {
    ProducerRank(s.producer) + WorkersRank(s.workers) + CollectorRank(s.collector)
    + (if s.outcomesClosed then 0 else 1) + (if s.canceled then 0 else 1)
  }

  lemma {:induction false} WorkersRankUpdate(workers: seq<Worker>, i: nat, worker: Worker)
    requires i < |workers|
    ensures WorkersRank(workers[i := worker]) == WorkersRank(workers) - WorkerRank(workers[i]) + WorkerRank(worker)
  {
    if i == 0 {
      assert workers[0 := worker][1..] == workers[1..];
    } else {
      assert workers[i := worker][1..] == workers[1..][i - 1 := worker];
      WorkersRankUpdate(workers[1..], i - 1, worker);
    }
  }

  lemma WorkDecreasesRank(c: Config, s: State, i: nat, step: WorkerStep)
    requires i < |s.workers| && CanWork(c, s.workers[i], s.jobsClosed, step)
    ensures Rank(Worked(c, s, i, step)) < Rank(s)
  {
    WorkersRankUpdate(s.workers, i, WorkerAfter(c, s.workers[i], s.jobsClosed, step));
  }

  lemma HandOverDecreasesRank(c: Config, s: State, step: Step)
    requires Enabled(c, s, step) && (step.Send? || step.Deliver?)
    ensures Rank(Apply(c, s, step)) < Rank(s)
  {
    WorkersRankUpdate(s.workers, step.i, if step.Send? then Measuring(s.producer.name) else Idle);
    assert step.Send? ==> Rank(Sent(s, step.i)) < Rank(s);
    assert step.Deliver? ==> Rank(Delivered(s, step.i)) < Rank(s);
  }

  lemma ProduceDecreasesRank(s: State, step: ProducerStep)
    requires CanProduce(s, step)
    ensures Rank(Produced(s, step)) < Rank(s)
  {
  }

  /** Every step, of any goroutine, takes the pipeline nearer its end. */
  lemma StepDecreasesRank(c: Config, s: State, step: Step)
    requires Enabled(c, s, step)
    ensures Rank(Apply(c, s, step)) < Rank(s)
  {
    match step
    case Produce(producerStep) => ProduceDecreasesRank(s, producerStep);
    case Work(i, workerStep) => WorkDecreasesRank(c, s, i, workerStep);
    case Collect(collectorStep) => CollectTouchesNoOther(c, s, collectorStep);
    case Send(_) => HandOverDecreasesRank(c, s, step);
    case Deliver(_) => HandOverDecreasesRank(c, s, step);
    case ParentCancels =>
    case OutcomesClose =>
  }

  /** An enabled step of the producer, unless it has to wait for a worker. */
  function ProducerMove(s: State): Step {
    match s.producer
    case Walking(walk) => Produce(if walk == [] then WalkEnds else WalkNext)
    case Sending(_, _) => Produce(SendAborts)
    case _ => Produce(ProducerExits)
  }

  /** An enabled step of a worker that holds a test or is leaving. */
  function BusyMove(worker: Worker, i: nat): Step {
    match worker
    case Writing(_) => Work(i, FileFails)
    case Delivering(_) => Deliver(i)
    case WorkerLeaving(_) => Work(i, WorkerExits)
    case _ => Work(i, MeasureFails)
  }

  lemma GroupProgress(c: Config, s: State) returns (step: Step)
    requires Inv(c, s) && |s.workers| > 0 && s.collector.Waiting?
    ensures step != ParentCancels && Enabled(c, s, step)
  {
    if i :| 0 <= i < |s.workers| && !s.workers[i].WorkerGone? {
      assert WorkerPhase(s, s.workers[i]);
      step := Work(i, WorkerExits);
    } else if s.producer.ProducerGone? {
      step := Collect(GroupEnds);
    } else {
      assert WorkerPhase(s, s.workers[0]);
      step := ProducerMove(s);
    }
  }

  lemma ReceivingProgress(c: Config, s: State) returns (step: Step)
    requires Inv(c, s) && s.collector.Receiving?
    ensures step != ParentCancels && Enabled(c, s, step)
  {
    if s.outcomesClosed {
      step := Collect(OutcomesEnd);
    } else if i :| 0 <= i < |s.workers| && !Left(s.workers[i]) {
      step :=
        if !s.workers[i].Idle? then BusyMove(s.workers[i], i)
        else if s.jobsClosed then Work(i, JobsEnd)
        else if s.producer.Sending? then Send(i)
        else ProducerMove(s);
    } else {
      step := OutcomesClose;
    }
  }

  // ---------- Main results ----------

  /** No reachable state is stuck: until estimateAll returns, some goroutine can
      take a step, whatever failed or was canceled before. */
  lemma NeverStuck(c: Config, execution: seq<State>, steps: seq<Step>, workers: nat, n: nat) returns (step: Step)
    requires IsExecution(c, execution, steps, workers) && workers > 0 && n < |execution|
    requires !execution[n].collector.Returned?
    ensures step != ParentCancels && Enabled(c, execution[n], step)
  {
    var s := execution[n];
    ExecutionKeepsInv(c, execution, steps, workers, n);
    match s.collector
    case Receiving => step := ReceivingProgress(c, s);
    case Waiting => step := GroupProgress(c, s);
    case _ => step := Collect(SaveFails);
  }

  /** Every execution ends: it has no more steps than the rank of its start. */
  lemma {:induction false} ExecutionEnds(c: Config, execution: seq<State>, steps: seq<Step>, workers: nat, n: nat)
    requires IsExecution(c, execution, steps, workers) && n < |execution|
    ensures n + Rank(execution[n]) <= Rank(execution[0])
  {
    if n > 0 {
      ExecutionEnds(c, execution, steps, workers, n - 1);
      StepDecreasesRank(c, execution[n - 1], steps[n - 1]);
    }
  }

  /** A test once sent is never offered again. */
  ghost predicate Settled(s: State, name: Name) {
    name !in s.missing && !(s.producer.Sending? && s.producer.name == name)
  }

  lemma StepKeepsSettled(c: Config, s: State, step: Step, name: Name)
    requires Enabled(c, s, step) && Settled(s, name)
    ensures Settled(Apply(c, s, step), name)
  {
    match step
    case Produce(producerStep) => assert Settled(Produced(s, producerStep), name);
    case Work(i, workerStep) => WorkMovesNothing(c, s, i, workerStep);
    case Collect(collectorStep) => CollectTouchesNoOther(c, s, collectorStep);
    case Send(i) => assert Settled(Sent(s, i), name);
    case Deliver(i) => assert Settled(Delivered(s, i), name);
    case ParentCancels =>
    case OutcomesClose =>
  }

  lemma {:induction false} SettledStays(c: Config, execution: seq<State>, steps: seq<Step>, workers: nat, i: nat,
                                        j: nat, name: Name)
    requires IsExecution(c, execution, steps, workers) && i <= j < |execution|
    requires Settled(execution[i], name)
    ensures Settled(execution[j], name)
  {
    if i < j {
      SettledStays(c, execution, steps, workers, i, j - 1, name);
      StepKeepsSettled(c, execution[j - 1], steps[j - 1], name);
    }
  }

  /** No test is sent to the workers twice, though fixtures may repeat its name. */
  lemma NoTestSentTwice(c: Config, execution: seq<State>, steps: seq<Step>, workers: nat, i: nat, j: nat)
    requires IsExecution(c, execution, steps, workers) && i < j < |steps|
    requires steps[i].Send? && steps[j].Send?
    ensures execution[i].producer.name != execution[j].producer.name
  {
    ExecutionKeepsInv(c, execution, steps, workers, i);
    var name := execution[i].producer.name;
    assert Settled(execution[i + 1], name);
    SettledStays(c, execution, steps, workers, i + 1, j, name);
    assert Enabled(c, execution[j], steps[j]);
  }

  /** The index of the one outcome of name. */
  ghost predicate RecordedOnce(log: seq<Outcome>, name: Name) {
    exists k :: 0 <= k < |log| && log[k].name == name && forall j :: 0 <= j < |log| && j != k ==> log[j].name != name
  }

  /** A return without an error means that every pending test was recorded
      exactly once, and no other, and that the artifact on disk, and the mirror
      of a profile, hold all of them. */
  lemma NilReturnMeansAllRecorded(c: Config, execution: seq<State>, steps: seq<Step>, workers: nat, n: nat)
    requires IsExecution(c, execution, steps, workers) && n < |execution|
    requires execution[n].collector == Returned(None)
    ensures forall name :: name in c.pending <==> Logged(execution[n], name)
    ensures forall name :: name in c.pending ==> RecordedOnce(execution[n].log, name)
    ensures execution[n].result == Replayed(c.start.result, execution[n].log)
    ensures c.pending != {} ==> SavedAll(c, execution[n])
    ensures forall k :: 0 <= k < |execution[n].log| ==> OnDisk(c, execution[n].disk, execution[n].log[k])
  {
    hide IsExecution, Placed, Phases, SavedAll, NoneDropped, OnDisk;
    ExecutionKeepsInv(c, execution, steps, workers, n);
    ReturnedMeansRecorded(c, execution[n]);
    ReturnedMeansSaved(c, execution[n]);
    forall k | 0 <= k < |execution[n].log| ensures OnDisk(c, execution[n].disk, execution[n].log[k]) {
      assert Logged(execution[n], execution[n].log[k].name);
      ReplayHoldsOutcome(c, execution[n], k);
      SavedHolds(c, execution[n], execution[n].log[k]);
    }
  }

  /** The saved artifact, and the mirror of a profile, hold the cost of the
      outcome or its failure under its name. */
  ghost predicate OnDisk(c: Config, disk: Store.Disk, done: Outcome) {
    && HoldsOutcome(Store.ArtifactAt(disk.Of(c.start.kind), c.start.id).records, done)
    && (c.start.mirror.Some? ==> HoldsOutcome(Store.ArtifactAt(disk.estimates, c.start.id).records, done))
  }

  lemma SavedHolds(c: Config, s: State, done: Outcome)
    requires SavedAll(c, s) && HoldsOutcome(s.result, done)
    ensures OnDisk(c, s.disk, done)
  {
  }

  /** The artifact in memory holds every outcome of the log. */
  lemma ReplayHoldsOutcome(c: Config, s: State, k: nat)
    requires Placed(c, s) && Filed(c, s) && k < |s.log|
    ensures HoldsOutcome(s.result, s.log[k])
  {
    LogIsHeld(c.start.result, s.log, k);
  }

  lemma {:induction false} LogIsHeld(base: Records, log: seq<Outcome>, k: nat)
    requires k < |log| && forall i, j :: 0 <= i < j < |log| ==> log[i].name != log[j].name
    ensures HoldsOutcome(Replayed(base, log), log[k])
  {
    var n := |log| - 1;
    if k < n {
      LogIsHeld(base, log[..n], k);
      assert log[n].name != log[k].name;
    }
  }

  lemma ReturnedMeansRecorded(c: Config, s: State)
    requires Placed(c, s) && NoneDropped(c, s) && Phases(s) && s.collector == Returned(None) && s.groupErr.None?
    ensures forall name :: name in c.pending <==> Logged(s, name)
    ensures forall name :: name in c.pending ==> RecordedOnce(s.log, name)
  {
  }

  lemma ReturnedMeansSaved(c: Config, s: State)
    requires Saves(c, s) && Filed(c, s) && s.collector == Returned(None)
    requires forall name :: name in c.pending ==> Logged(s, name)
    ensures c.pending != {} ==> SavedAll(c, s)
  {
    if c.pending != {} {
      var name :| name in c.pending;
      assert Logged(s, name);
      ReplayHolds(c.start.result, s.log, name);
    }
  }

  /** A recorded outcome leaves its name in the artifact. */
  lemma {:induction false} ReplayHolds(base: Records, log: seq<Outcome>, name: Name)
    ensures name in Replayed(base, log).Names() <==>
              name in base.Names() || exists k :: 0 <= k < |log| && log[k].name == name
  {
    if log != [] {
      var rest, last := log[..|log| - 1], log[|log| - 1];
      ReplayHolds(base, rest, name);
      assert forall k :: 0 <= k < |rest| ==> log[k] == rest[k];
      assert name in Replayed(base, log).Names() <==> name in Replayed(base, rest).Names() || name == last.name;
    }
  }

  // ---------- Refinement of the results store ----------

  /** The pipeline as the results store sees it: a measuring command whose
      landed test files are those of the outcomes still to be delivered. */
  ghost predicate Matches(c: Config, s: State, store: Store.State) {
    && store.disk == s.disk
    && store.mode.Measuring?
    && store.mode.run == c.start.(result := s.result)
    && store.mode.due ==
         (if s.collector.SavingMirror? && c.start.mirror.Some?
          then Some(Merged(c.start.mirror.value, s.result)) else None)
    && (forall i :: 0 <= i < |s.workers| ==> FileLanded(c, s.workers[i], store.mode.landed))
    && (forall name :: name in store.mode.landed ==> exists i :: 0 <= i < |s.workers| && LandedBy(s.workers[i], name))
    && (c.start.kind.Estimate? ==> store.mode.landed == map[])
  }

  ghost predicate FileLanded(c: Config, worker: Worker, landed: map<Name, Cost>) {
    worker.Delivering? && worker.done.measured.Priced? && c.start.kind.Profile? ==>
      worker.done.name in landed && landed[worker.done.name] == worker.done.measured.cost
  }

  ghost predicate LandedBy(worker: Worker, name: Name) {
    worker.Delivering? && worker.done.measured.Priced? && worker.done.name == name
  }

  /** The step of the results store that a step of the pipeline is, or None when
      it changes neither the disk nor the records. */
  function StoreStep(c: Config, s: State, step: Step): Option<Store.Step>
    requires Enabled(c, s, step)
  {
    match step
    case Work(i, workerStep) =>
      if workerStep.FileLands? then Some(Store.FileLands(s.workers[i].done.name, s.workers[i].done.measured.cost))
        else None
    case Deliver(i) => Some(Store.Record(s.workers[i].done))
    case Collect(collectorStep) =>
      if collectorStep.SaveLands? then
        Some(if s.collector.SavingArtifact? then Store.SaveArtifact else Store.SaveMirror)
      else if collectorStep.SaveFails? && s.collector.SavingMirror? then Some(Store.MirrorFails)
      else None
    case _ => None
  }

  /** A worker keeps an outcome it delivers, and gets none with a test file. */
  ghost predicate QuietWorker(c: Config, before: Worker, after: Worker) {
    && (before.Delivering? ==> after == before)
    && (after.Delivering? && after != before ==> !(after.done.measured.Priced? && c.start.kind.Profile?))
  }

  lemma QuietWork(c: Config, s: State, i: nat, step: WorkerStep)
    requires i < |s.workers| && CanWork(c, s.workers[i], s.jobsClosed, step) && !step.FileLands?
    ensures QuietState(c, s, Worked(c, s, i, step))
  {
    assert QuietWorker(c, s.workers[i], WorkerAfter(c, s.workers[i], s.jobsClosed, step));
  }

  lemma QuietCollect(c: Config, s: State, step: CollectorStep)
    requires CanCollect(c, s, step) && StoreStep(c, s, Collect(step)).None?
    ensures QuietState(c, s, Collected(c, s, step))
  {
  }

  /** A step that delivers nothing and lands no file leaves the store alone. */
  ghost predicate QuietState(c: Config, s: State, s': State) {
    && s'.disk == s.disk && s'.result == s.result && |s'.workers| == |s.workers|
    && (s'.collector.SavingMirror? <==> s.collector.SavingMirror?)
    && forall i :: 0 <= i < |s.workers| ==> QuietWorker(c, s.workers[i], s'.workers[i])
  }

  lemma QuietProduce(c: Config, s: State, step: ProducerStep)
    requires CanProduce(s, step)
    ensures QuietState(c, s, Produced(s, step))
  {
  }

  lemma QuietSend(c: Config, s: State, i: nat)
    requires Enabled(c, s, Send(i))
    ensures QuietState(c, s, Sent(s, i))
  {
  }

  lemma QuietStep(c: Config, s: State, step: Step)
    requires Enabled(c, s, step) && StoreStep(c, s, step).None?
    ensures QuietState(c, s, Apply(c, s, step))
  {
    hide Collected, Produced, Sent, Worked, CanWork, CanCollect, CanProduce;
    match step
    case Produce(producerStep) => QuietProduce(c, s, producerStep);
    case Work(i, workerStep) => QuietWork(c, s, i, workerStep);
    case Collect(collectorStep) => QuietCollect(c, s, collectorStep);
    case Send(i) => QuietSend(c, s, i);
    case ParentCancels =>
    case OutcomesClose =>
  }

  lemma QuietWorkersMatch(c: Config, s: State, s': State, store: Store.State)
    requires Matches(c, s, store) && QuietState(c, s, s')
    ensures Matches(c, s', store)
  {
  }

  /** The landed files after the worker i changed, when its test is the only one
      whose file landed or left. */
  lemma LandedMatches(c: Config, s: State, i: nat, worker: Worker, landed: map<Name, Cost>, landed': map<Name, Cost>,
                      name: Name)
    requires i < |s.workers| && Held(s.workers[i]) == Some(name) && HeldOnce(c, s, i, name)
    requires forall j :: 0 <= j < |s.workers| ==> FileLanded(c, s.workers[j], landed)
    requires forall other :: other in landed ==> exists j :: 0 <= j < |s.workers| && LandedBy(s.workers[j], other)
    requires forall other :: other != name ==>
               (other in landed' <==> other in landed) && (other in landed ==> landed'[other] == landed[other])
    requires FileLanded(c, worker, landed') && (name in landed' ==> LandedBy(worker, name))
    ensures var workers := s.workers[i := worker];
            && (forall j :: 0 <= j < |workers| ==> FileLanded(c, workers[j], landed'))
            && (forall other :: other in landed' ==> exists j :: 0 <= j < |workers| && LandedBy(workers[j], other))
  {
    var workers := s.workers[i := worker];
    forall j | 0 <= j < |workers| ensures FileLanded(c, workers[j], landed') {
      assert FileLanded(c, s.workers[j], landed);
      assert j != i ==> Held(s.workers[j]) != Some(name);
    }
    forall other | other in landed' ensures exists j :: 0 <= j < |workers| && LandedBy(workers[j], other) {
      if other == name {
        assert LandedBy(workers[i], name);
      } else {
        var j :| 0 <= j < |s.workers| && LandedBy(s.workers[j], other);
        assert workers[j] == s.workers[j];
      }
    }
  }

  /** The test of an outcome on its way is neither recorded nor landed by
      another worker. */
  lemma HeldIsNew(c: Config, s: State, i: nat, store: Store.State)
    requires c.Valid() && Inv(c, s) && Matches(c, s, store)
    requires i < |s.workers| && (s.workers[i].Writing? || s.workers[i].Delivering?)
    ensures var name := s.workers[i].done.name;
            && HeldOnce(c, s, i, name) && name !in s.result.Names()
            && (name in store.mode.landed ==> LandedBy(s.workers[i], name))
  {
    var name := s.workers[i].done.name;
    assert HeldOnce(c, s, i, name);
    ReplayHolds(c.start.result, s.log, name);
    assert forall j :: 0 <= j < |s.workers| && LandedBy(s.workers[j], name) ==> Held(s.workers[j]) == Some(name);
  }

  lemma FileLandsMatches(c: Config, s: State, i: nat, store: Store.State)
    requires c.Valid() && Inv(c, s) && Enabled(c, s, Work(i, FileLands)) && Matches(c, s, store)
    ensures var done := s.workers[i].done;
            var step := Store.FileLands(done.name, done.measured.cost);
            Store.Enabled(store, step) && Matches(c, Worked(c, s, i, FileLands), Store.Apply(store, step))
  {
    var done := s.workers[i].done;
    HeldIsNew(c, s, i, store);
    LandedMatches(c, s, i, Delivering(done), store.mode.landed, store.mode.landed[done.name := done.measured.cost],
      done.name);
  }

  lemma DeliverMatches(c: Config, s: State, i: nat, store: Store.State)
    requires c.Valid() && Inv(c, s) && Enabled(c, s, Deliver(i)) && Matches(c, s, store)
    ensures var step := Store.Record(s.workers[i].done);
            Store.Enabled(store, step) && Matches(c, Delivered(s, i), Store.Apply(store, step))
  {
    var done := s.workers[i].done;
    HeldIsNew(c, s, i, store);
    assert FileLanded(c, s.workers[i], store.mode.landed);
    LandedMatches(c, s, i, Idle, store.mode.landed, store.mode.landed - {done.name}, done.name);
  }

  /** Only the disk and the collector move, and the disk as the store's does. */
  lemma SavedMatches(c: Config, s: State, s': State, store: Store.State, store': Store.State)
    requires Matches(c, s, store) && s'.workers == s.workers && s'.result == s.result && s'.disk == store'.disk
    requires store'.mode.Measuring? && store'.mode.run == store.mode.run && store'.mode.landed == store.mode.landed
    requires store'.mode.due ==
               if s'.collector.SavingMirror? && c.start.mirror.Some?
                 then Some(Merged(c.start.mirror.value, s.result)) else None
    ensures Matches(c, s', store')
  {
  }

  lemma ArtifactSaveMatches(c: Config, s: State, store: Store.State)
    requires CanCollect(c, s, SaveLands) && s.collector.SavingArtifact? && Matches(c, s, store)
    ensures Store.Enabled(store, Store.SaveArtifact)
    ensures Matches(c, Collected(c, s, SaveLands), Store.Apply(store, Store.SaveArtifact))
  {
    hide FileLanded, LandedBy, Store.WriteArtifact, Merged;
    SavedMatches(c, s, Collected(c, s, SaveLands), store, Store.Apply(store, Store.SaveArtifact));
  }

  lemma MirrorSaveMatches(c: Config, s: State, step: CollectorStep, store: Store.State)
    requires CanCollect(c, s, step) && s.collector.SavingMirror? && c.start.mirror.Some? && Matches(c, s, store)
    ensures var taken := if step.SaveLands? then Store.SaveMirror else Store.MirrorFails;
            Store.Enabled(store, taken) && Matches(c, Collected(c, s, step), Store.Apply(store, taken))
  {
    hide FileLanded, LandedBy, Store.WriteArtifact, Merged;
    var taken := if step.SaveLands? then Store.SaveMirror else Store.MirrorFails;
    SavedMatches(c, s, Collected(c, s, step), store, Store.Apply(store, taken));
  }

  lemma SaveMatches(c: Config, s: State, step: CollectorStep, store: Store.State)
    requires c.Valid() && Inv(c, s) && CanCollect(c, s, step) && Matches(c, s, store)
    requires StoreStep(c, s, Collect(step)).Some?
    ensures var taken := StoreStep(c, s, Collect(step)).value;
            Store.Enabled(store, taken) && Matches(c, Collected(c, s, step), Store.Apply(store, taken))
  {
    hide Matches, Collected, Store.Enabled, Store.Apply, Placed, NoneDropped, Phases, Filed;
    if s.collector.SavingArtifact? {
      ArtifactSaveMatches(c, s, store);
    } else {
      MirrorSaveMatches(c, s, step, store);
    }
  }

  /** Every step of the pipeline, under every interleaving, is a step of the
      results store or leaves it as it is. What the store keeps over every
      sequence of commands then holds at every step of the goroutines. */
  lemma StepRefinesStore(c: Config, s: State, step: Step, store: Store.State) returns (store': Store.State)
    requires c.Valid() && Inv(c, s) && Enabled(c, s, step) && Matches(c, s, store)
    ensures Matches(c, Apply(c, s, step), store')
    ensures match StoreStep(c, s, step)
            case Some(taken) => Store.Enabled(store, taken) && store' == Store.Apply(store, taken)
            case None => store' == store
  {
    match StoreStep(c, s, step)
    case None =>
      QuietStep(c, s, step);
      QuietWorkersMatch(c, s, Apply(c, s, step), store);
      store' := store;
    case Some(taken) =>
      match step {
        case Work(i, _) => FileLandsMatches(c, s, i, store);
        case Deliver(i) => DeliverMatches(c, s, i, store);
        case Collect(collectorStep) => SaveMatches(c, s, collectorStep, store);
        case _ =>
      }
      store' := Store.Apply(store, taken);
  }

  /** Crash consistency of the pipeline: when it starts as a command of the
      results store, the disk is sound in every state of every interleaving. */
  lemma {:induction false} ExecutionKeepsDiskSound(c: Config, execution: seq<State>, steps: seq<Step>, workers: nat,
                                                   n: nat, start: Store.State)
    returns (store: Store.State)
    requires IsExecution(c, execution, steps, workers) && n < |execution|
    requires Store.Inv(start) && Matches(c, execution[0], start)
    ensures Store.Inv(store) && Matches(c, execution[n], store)
    ensures Store.Sound(execution[n].disk)
  {
    if n == 0 {
      store := start;
    } else {
      var before := ExecutionKeepsDiskSound(c, execution, steps, workers, n - 1, start);
      store := OneStepKeepsDiskSound(c, execution, steps, workers, n - 1, before);
    }
  }

  lemma OneStepKeepsDiskSound(c: Config, execution: seq<State>, steps: seq<Step>, workers: nat, n: nat,
                              before: Store.State)
    returns (store: Store.State)
    requires IsExecution(c, execution, steps, workers) && n < |steps|
    requires Store.Inv(before) && Matches(c, execution[n], before)
    ensures Store.Inv(store) && Matches(c, execution[n + 1], store)
  {
    ExecutionKeepsInv(c, execution, steps, workers, n);
    store := StepRefinesStore(c, execution[n], steps[n], before);
    match StoreStep(c, execution[n], steps[n])
    case Some(taken) => Store.StepKeepsInv(before, taken);
    case None =>
  }

  /** A history and one more step of the store. */
  lemma HistoryGrows(history: seq<Store.State>, taken: seq<Store.Step>, step: Store.Step)
    requires Store.IsHistory(history, taken) && Store.Enabled(history[|history| - 1], step)
    ensures Store.IsHistory(history + [Store.Apply(history[|history| - 1], step)], taken + [step])
  {
    hide Store.Enabled, Store.Apply, Store.Sound;
  }

  /** An interleaving continues the history that reached its command: each of its
      states is one of a longer history, in which no artifact moves. */
  lemma {:induction false} ExecutionExtendsHistory(c: Config, execution: seq<State>, steps: seq<Step>, workers: nat,
                                                   n: nat, history: seq<Store.State>, taken: seq<Store.Step>)
    returns (more: seq<Store.State>, all: seq<Store.Step>)
    requires IsExecution(c, execution, steps, workers) && n < |execution|
    requires Store.IsHistory(history, taken) && Matches(c, execution[0], history[|history| - 1])
    ensures Store.IsHistory(more, all) && history <= more && taken <= all
    ensures Matches(c, execution[n], more[|more| - 1])
    ensures forall k :: |taken| <= k < |all| ==> !all[k].Link? && !all[k].LinkMirror?
  {
    hide Inv, Matches, Enabled, Apply, Store.Enabled, Store.Apply, Store.Sound;
    if n == 0 {
      more, all := history, taken;
    } else {
      var last := n - 1;
      more, all := ExecutionExtendsHistory(c, execution, steps, workers, last, history, taken);
      ExecutionKeepsInv(c, execution, steps, workers, last);
      var store' := StepRefinesStore(c, execution[last], steps[last], more[|more| - 1]);
      match StoreStep(c, execution[last], steps[last])
      case Some(step) =>
        HistoryGrows(more, all, step);
        more, all := more + [store'], all + [step];
      case None =>
    }
  }

  lemma {:induction false} NothingMovesArtifacts(history: seq<Store.State>, taken: seq<Store.Step>, i: nat, j: nat,
                                                 k: nat, kind: Store.Kind, id: Id)
    requires i <= j <= k <= |taken| <= |history|
    requires forall m :: j <= m < k ==> !taken[m].Link? && !taken[m].LinkMirror?
    ensures Store.MovedBy(history, taken, i, k, kind, id) == Store.MovedBy(history, taken, i, j, kind, id)
  {
    if j < k { NothingMovesArtifacts(history, taken, i, j, k - 1, kind, id); }
  }

  lemma {:induction false} MovedByPrefix(history: seq<Store.State>, taken: seq<Store.Step>, more: seq<Store.State>,
                                         all: seq<Store.Step>, i: nat, j: nat, kind: Store.Kind, id: Id)
    requires i <= j <= |taken| <= |history| && history <= more && taken <= all && |all| <= |more|
    ensures Store.MovedBy(more, all, i, j, kind, id) == Store.MovedBy(history, taken, i, j, kind, id)
  {
    if i < j { MovedByPrefix(history, taken, more, all, i, j - 1, kind, id); }
  }

  /** What the store keeps over every history holds at every interleaved state of
      a command that a history reached: every cost of a profile has its test file,
      every record its header's guest, and no name that was ever saved is lost. */
  lemma InterleavingKeepsHistory(c: Config, execution: seq<State>, steps: seq<Step>, workers: nat, n: nat,
                                 history: seq<Store.State>, taken: seq<Store.Step>, i: nat, kind: Store.Kind, id: Id)
    requires IsExecution(c, execution, steps, workers) && n < |execution|
    requires Store.IsHistory(history, taken) && Matches(c, execution[0], history[|history| - 1]) && i < |history|
    ensures var disk := execution[n].disk;
            var artifact := Store.ArtifactAt(disk.Of(kind), id);
            && Store.Covers(Store.DirAt(disk.profiles, id).files, Store.ArtifactAt(disk.profiles, id).records.tests)
            && artifact.records.MeasuredUnder(artifact.header.guest)
            && Store.NamesAt(history[i].disk, kind, id)
               <= Store.NamesAt(disk, kind, Store.MovedBy(history, taken, i, |taken|, kind, id))
  {
    var more, all := ExecutionExtendsHistory(c, execution, steps, workers, n, history, taken);
    var end := |more| - 1;
    assert more[end].disk == execution[n].disk by { MatchesDisk(c, execution[n], more[end]); }
    hide IsExecution, Matches, Store.Sound, Store.Enabled, Store.Apply, Store.MovedBy, Store.NamesAt,
         Records.MeasuredUnder;
    forall name | name in Store.ArtifactAt(more[end].disk.profiles, id).records.tests
      ensures name in Store.DirAt(more[end].disk.profiles, id).files
      ensures Store.DirAt(more[end].disk.profiles, id).files[name]
              == Store.ArtifactAt(more[end].disk.profiles, id).records.tests[name]
    {
      Store.ProfilesHaveTheirFiles(more, all, end, id, name);
    }
    Store.RecordsMatchTheirHeader(more, all, end, kind, id);
    Store.HistoryLosesNoName(more, all, i, end, kind, id);
    NothingMovesArtifacts(more, all, i, |taken|, end, kind, id);
    MovedByPrefix(history, taken, more, all, i, |taken|, kind, id);
    assert more[i] == history[i];
  }

  lemma MatchesDisk(c: Config, s: State, store: Store.State)
    requires Matches(c, s, store)
    ensures store.disk == s.disk
  {
  }
}
