/** The proof endpoint: requests that run concurrently and take turns on one
    cluster, and what each answers. */
module Serving {
  import opened Wrappers

  // ---------- The answer of one proof ----------

  type Bytes = seq<bv8>

  ghost predicate IsZero(bytes: Bytes) {
    forall i :: 0 <= i < |bytes| ==> bytes[i] == 0
  }

  /** The committed values are the expected output followed by zeros. */
  method OutputMatched(publicValues: Bytes, expected: Bytes) returns (matched: bool)
    ensures matched <==> exists tail: Bytes :: publicValues == expected + tail && IsZero(tail)
  {
    if |expected| > |publicValues| { return false; }
    if publicValues[..|expected|] != expected {
      forall tail: Bytes ensures publicValues != expected + tail {
        assert (expected + tail)[..|expected|] == expected;
      }
      return false;
    }
    ghost var rest := publicValues[|expected|..];
    assert publicValues == expected + rest;
    for k := |expected| to |publicValues|
      invariant forall i :: |expected| <= i < k ==> publicValues[i] == 0
    {
      if publicValues[k] != 0 {
        forall tail: Bytes | publicValues == expected + tail ensures !IsZero(tail) {
          assert tail[k - |expected|] == publicValues[k];
        }
        return false;
      }
    }
    assert IsZero(rest);
    return true;
  }

  datatype Status = Valid | Invalid(output: Bytes)

  /** The status of a finished proof and its measured time. */
  method Settle(called: int, finished: int, submitWait: int, publicValues: Bytes, expected: Bytes)
    returns (provingTime: int, status: Status)
    ensures provingTime + submitWait == finished - called
    ensures status == Valid <==> exists tail: Bytes :: publicValues == expected + tail && IsZero(tail)
    ensures status.Invalid? ==> status.output == publicValues
  {
    provingTime := finished - called - submitWait;
    var matched := OutputMatched(publicValues, expected);
    status := if matched then Valid else Invalid(publicValues);
  }

  // ---------- Runs of requests ----------

  /** Readying to Warming hold the lock. A recovering request saw its proof fail
      while its client was there. */
  datatype Stage = Arrived(wellFormed: bool) | Readying | Proving | Recovering | Warming | Answered {
    predicate HoldsLock() {
      Readying? || Proving? || Recovering? || Warming?
    }

    predicate HasProof() {
      Proving? || Warming?
    }
  }

  datatype Event = Began(request: nat) | Proved(request: nat) | Failed(request: nat, clientPresent: bool)
                 | WarmupBegan(request: nat) | WarmupEnded(request: nat)

  datatype State = State(requests: seq<Stage>, holder: Option<nat>, exited: bool, log: seq<Event>)

  datatype Step = Arrive(wellFormed: bool) | Reject(r: nat) | Lock(r: nat) | Start(r: nat) | Succeed(r: nat)
                | Fail(r: nat, clientPresent: bool) | WarmUp(r: nat) | EndWarmup(r: nat)

  const INITIAL := State([], None, false, [])

  predicate Is(s: State, r: nat, stage: Stage) {
    r < |s.requests| && s.requests[r] == stage
  }

  predicate Enabled(s: State, step: Step) {
    && !s.exited
    && match step
       case Arrive(_) => true
       case Reject(r) => Is(s, r, Arrived(false))
       case Lock(r) => Is(s, r, Arrived(true)) && s.holder.None?
       case Start(r) => Is(s, r, Readying)
       case Succeed(r) => Is(s, r, Proving)
       case Fail(r, _) => Is(s, r, Proving)
       case WarmUp(r) => Is(s, r, Recovering)
       case EndWarmup(r) => Is(s, r, Warming)
  }

  function Moved(s: State, r: nat, stage: Stage): State
    requires r < |s.requests|
  {
    s.(requests := s.requests[r := stage], holder := if stage.HoldsLock() then Some(r) else None)
  }

  function Logged(s: State, event: Event): State {
    s.(log := s.log + [event])
  }

  /** One step. A failure of the cluster ends the process when that is asked for,
      else the cluster is warmed up again under the lock. */
  function Apply(failRun: bool, s: State, step: Step): State
    requires Enabled(s, step)
  {
    match step
    case Arrive(wellFormed) => s.(requests := s.requests + [Arrived(wellFormed)])
    case Reject(r) => s.(requests := s.requests[r := Answered])
    case Lock(r) => Moved(s, r, Readying)
    case Start(r) => Logged(Moved(s, r, Proving), Began(r))
    case Succeed(r) => Logged(Moved(s, r, Answered), Proved(r))
    case Fail(r, clientPresent) =>
      var failed := Logged(Moved(s, r, if clientPresent then Recovering else Answered), Failed(r, clientPresent));
      if clientPresent && failRun then failed.(exited := true) else failed
    case WarmUp(r) => Logged(Moved(s, r, Warming), WarmupBegan(r))
    case EndWarmup(r) => Logged(Moved(s, r, Answered), WarmupEnded(r))
  }

  ghost predicate IsStep(failRun: bool, s: State, step: Step, next: State) {
    Enabled(s, step) && next == Apply(failRun, s, step)
  }

  ghost predicate IsExecution(failRun: bool, states: seq<State>, steps: seq<Step>) {
    && |states| == |steps| + 1 && states[0] == INITIAL
    && forall i :: 0 <= i < |steps| ==> IsStep(failRun, states[i], steps[i], states[i + 1])
  }

  // ---------- One proof at a time ----------

  ghost predicate LockInv(s: State) {
    && (forall r :: 0 <= r < |s.requests| && s.requests[r].HoldsLock() ==> s.holder == Some(r))
    && (s.holder.Some? ==> s.holder.value < |s.requests| && s.requests[s.holder.value].HoldsLock())
  }

  lemma StepKeepsLock(failRun: bool, s: State, step: Step)
    requires Enabled(s, step) && LockInv(s)
    ensures LockInv(Apply(failRun, s, step))
  {
  }

  /** How far a request is from its answer. */
  function Distance(stage: Stage): nat {
    match stage
    case Arrived(_) => 5
    case Readying => 4
    case Proving => 3
    case Recovering => 2
    case Warming => 1
    case Answered => 0
  }

  /** The step brings the request r nearer to its answer and moves no other. */
  ghost predicate Advances(before: seq<Stage>, after: seq<Stage>, r: nat) {
    && |after| == |before| && r < |before| && Distance(after[r]) < Distance(before[r])
    && forall q :: 0 <= q < |before| && q != r ==> after[q] == before[q]
  }

  /** The lock is never lost: while the process runs and a request waits, some
      request can be brought nearer to its answer, and no step takes one back. */
  lemma RequestsNeverStick(failRun: bool, states: seq<State>, steps: seq<Step>, n: nat, q: nat)
    requires IsExecution(failRun, states, steps) && n < |states|
    requires !states[n].exited && q < |states[n].requests| && !states[n].requests[q].Answered?
    ensures exists step, r ::
              Enabled(states[n], step) && Advances(states[n].requests, Apply(failRun, states[n], step).requests, r)
  {
    ExecutionKeepsInv(failRun, states, steps, n);
    var s := states[n];
    var r: nat := if s.holder.Some? then s.holder.value else q;
    var step := match s.requests[r]
      case Arrived(wellFormed) => if wellFormed then Lock(r) else Reject(r)
      case Readying => Start(r)
      case Proving => Succeed(r)
      case Recovering => WarmUp(r)
      case Warming => EndWarmup(r)
      case Answered => Arrive(true);
    assert Enabled(s, step) && Advances(s.requests, Apply(failRun, s, step).requests, r);
  }

  lemma StepsOnlyAdvance(failRun: bool, s: State, step: Step)
    requires Enabled(s, step) && !step.Arrive?
    ensures exists r :: Advances(s.requests, Apply(failRun, s, step).requests, r)
  {
    assert Advances(s.requests, Apply(failRun, s, step).requests, step.r);
  }

  // ---------- A warmup after every failure ----------

  /** The cluster failed at the event i while the client was there. */
  predicate FailsAt(log: seq<Event>, i: nat) {
    i < |log| && log[i].Failed? && log[i].clientPresent
  }

  /** Between two events a warmup of this request began and ended. */
  ghost predicate WarmsBetween(log: seq<Event>, i: nat, j: nat, request: nat)
    requires j <= |log|
  {
    exists k, l :: i < k < l < j && log[k] == WarmupBegan(request) && log[l] == WarmupEnded(request)
  }

  /** Every failure is recovered from by now, or its request still holds the lock
      with the warmup ahead or under way, or the process has exited. */
  ghost predicate Recovered(s: State, i: nat)
    requires FailsAt(s.log, i)
  {
    var r := s.log[i].request;
    || s.exited
    || WarmsBetween(s.log, i, |s.log|, r)
    || Is(s, r, Recovering)
    || (Is(s, r, Warming) && exists k :: i < k < |s.log| && s.log[k] == WarmupBegan(r))
  }

  ghost predicate LogInv(s: State) {
    && (forall i: nat :: FailsAt(s.log, i) ==> Recovered(s, i))
    && (forall i: nat, j: nat :: FailsAt(s.log, i) && i < j < |s.log| && s.log[j].Began? ==>
       WarmsBetween(s.log, i, j, s.log[i].request))
  }

  lemma WarmsLater(log: seq<Event>, more: seq<Event>, i: nat, j: nat, request: nat)
    requires |log| <= |more| && log == more[..|log|] && j <= |log| && WarmsBetween(log, i, j, request)
    ensures forall later :: j <= later <= |more| ==> WarmsBetween(more, i, later, request)
  {
    var k, l :| i < k < l < j && log[k] == WarmupBegan(request) && log[l] == WarmupEnded(request);
    assert more[k] == log[k] && more[l] == log[l];
  }

  lemma StepKeepsRecovered(failRun: bool, s: State, step: Step, i: nat)
    requires Enabled(s, step) && LockInv(s) && FailsAt(s.log, i) && Recovered(s, i)
    ensures FailsAt(Apply(failRun, s, step).log, i) && Recovered(Apply(failRun, s, step), i)
  {
    var next := Apply(failRun, s, step);
    var r := s.log[i].request;
    assert s.log == next.log[..|s.log|];
    assert next.log[i] == s.log[i];
    if WarmsBetween(s.log, i, |s.log|, r) {
      WarmsLater(s.log, next.log, i, |s.log|, r);
    } else if Is(s, r, Recovering) {
      if step == WarmUp(r) { assert next.log[|s.log|] == WarmupBegan(r); }
    } else {
      var k :| i < k < |s.log| && s.log[k] == WarmupBegan(r);
      assert next.log[k] == WarmupBegan(r);
      if step == EndWarmup(r) {
        assert next.log[|s.log|] == WarmupEnded(r);
        assert WarmsBetween(next.log, i, |next.log|, r);
      }
    }
  }

  lemma StepKeepsLog(failRun: bool, s: State, step: Step)
    requires Enabled(s, step) && LockInv(s) && LogInv(s)
    ensures LogInv(Apply(failRun, s, step))
  {
    var next := Apply(failRun, s, step);
    assert s.log == next.log[..|s.log|];
    forall i: nat | FailsAt(next.log, i) ensures Recovered(next, i) {
      if i < |s.log| {
        assert next.log[i] == s.log[i];
        StepKeepsRecovered(failRun, s, step, i);
      }
    }
    forall i: nat, j: nat | FailsAt(next.log, i) && i < j < |next.log| && next.log[j].Began?
      ensures WarmsBetween(next.log, i, j, next.log[i].request)
    {
      StartsAfterWarmup(failRun, s, step, i, j);
    }
  }

  lemma StartsAfterWarmup(failRun: bool, s: State, step: Step, i: nat, j: nat)
    requires Enabled(s, step) && LockInv(s) && LogInv(s)
    requires var log := Apply(failRun, s, step).log; FailsAt(log, i) && i < j < |log| && log[j].Began?
    ensures var log := Apply(failRun, s, step).log; WarmsBetween(log, i, j, log[i].request)
  {
    var next := Apply(failRun, s, step);
    assert s.log == next.log[..|s.log|];
    assert next.log[i] == s.log[i];
    assert FailsAt(s.log, i);
    if j < |s.log| {
      assert next.log[j] == s.log[j];
      WarmsLater(s.log, next.log, i, j, s.log[i].request);
    } else {
      assert step.Start? && s.holder == Some(step.r);
      assert Recovered(s, i);
      WarmsLater(s.log, next.log, i, |s.log|, s.log[i].request);
    }
  }

  lemma {:induction false} ExecutionKeepsInv(failRun: bool, states: seq<State>, steps: seq<Step>, n: nat)
    requires IsExecution(failRun, states, steps) && n < |states|
    ensures LockInv(states[n]) && LogInv(states[n])
  {
    hide Enabled, Apply, LockInv, LogInv;
    if n == 0 {
      StartIsFine();
    } else {
      var last := n - 1;
      ExecutionKeepsInv(failRun, states, steps, last);
      assert IsStep(failRun, states[last], steps[last], states[last + 1]);
      StepKeepsLock(failRun, states[last], steps[last]);
      StepKeepsLog(failRun, states[last], steps[last]);
    }
  }

  lemma StartIsFine()
    ensures LockInv(INITIAL) && LogInv(INITIAL)
  {
  }

  /** Over every run at most one proof of a request, measured or warmup, is in
      flight. */
  lemma OneProofAtATime(failRun: bool, states: seq<State>, steps: seq<Step>, n: nat, q: nat, r: nat)
    requires IsExecution(failRun, states, steps) && n < |states|
    requires q < |states[n].requests| && r < |states[n].requests| && states[n].requests[q].HasProof()
             && states[n].requests[r].HasProof()
    ensures q == r
  {
    ExecutionKeepsInv(failRun, states, steps, n);
  }

  /** Over every run, between a proof that failed while its client was there and
      any later measured proof, a whole warmup of the failed request took place.
      When the process is to exit on such a failure, no measured proof follows. */
  lemma WarmupFollowsFailure(failRun: bool, states: seq<State>, steps: seq<Step>, n: nat, i: nat, j: nat)
    requires IsExecution(failRun, states, steps) && n < |states|
    requires var log := states[n].log; FailsAt(log, i) && i < j < |log| && log[j].Began?
    ensures var log := states[n].log; WarmsBetween(log, i, j, log[i].request) && !failRun
  {
    ExecutionKeepsInv(failRun, states, steps, n);
    if failRun {
      ExitIsLast(states, steps, n, i);
    }
  }

  lemma {:induction false} ExitIsLast(states: seq<State>, steps: seq<Step>, n: nat, i: nat)
    requires IsExecution(true, states, steps) && n < |states| && FailsAt(states[n].log, i)
    ensures states[n].exited && i == |states[n].log| - 1
  {
    if n > 0 {
      var last := n - 1;
      assert IsStep(true, states[last], steps[last], states[last + 1]);
      if i < |states[last].log| {
        assert states[n].log[i] == states[last].log[i];
        ExitIsLast(states, steps, last, i);
      }
    }
  }

  /** The process exits on a failure of the cluster, when that is asked for, and
      on nothing else. */
  lemma {:induction false} ExitIsExact(failRun: bool, states: seq<State>, steps: seq<Step>, n: nat)
    requires IsExecution(failRun, states, steps) && n < |states|
    ensures states[n].exited <==> failRun && exists i: nat :: FailsAt(states[n].log, i)
  {
    if n > 0 {
      var last := n - 1;
      ExitIsExact(failRun, states, steps, last);
      assert IsStep(failRun, states[last], steps[last], states[last + 1]);
      var log, more := states[last].log, states[n].log;
      assert forall i :: 0 <= i < |log| ==> more[i] == log[i];
      if i: nat :| FailsAt(log, i) { assert FailsAt(more, i); }
      if steps[last].Fail? && steps[last].clientPresent { assert FailsAt(more, |log|); }
      if i: nat :| FailsAt(more, i) && i < |log| { assert FailsAt(log, i); }
    }
  }

  // ---------- The events of one request ----------

  function EventsOf(log: seq<Event>, r: nat): seq<Event> {
    if log == [] then []
    else
      var n := |log| - 1;
      EventsOf(log[..n], r) + if log[n].request == r then [log[n]] else []
  }

  lemma OneMoreEvent(log: seq<Event>, event: Event, r: nat)
    ensures EventsOf(log + [event], r) == EventsOf(log, r) + if event.request == r then [event] else []
  {
    assert (log + [event])[..|log|] == log;
  }

  /** What a request has caused by the time it is at a stage. */
  ghost predicate TellsStage(stage: Stage, r: nat, events: seq<Event>) {
    match stage
    case Arrived(_) => events == []
    case Readying => events == []
    case Proving => events == [Began(r)]
    case Recovering => events == [Began(r), Failed(r, true)]
    case Warming => events == [Began(r), Failed(r, true), WarmupBegan(r)]
    case Answered =>
      || events == []
      || events == [Began(r), Proved(r)]
      || events == [Began(r), Failed(r, false)]
      || events == [Began(r), Failed(r, true), WarmupBegan(r), WarmupEnded(r)]
  }

  ghost predicate TellsRequest(s: State, r: nat) {
    var events := EventsOf(s.log, r);
    if r < |s.requests| then TellsStage(s.requests[r], r, events) else events == []
  }

  lemma StepTellsRequest(failRun: bool, s: State, step: Step, r: nat)
    requires Enabled(s, step) && TellsRequest(s, r)
    ensures TellsRequest(Apply(failRun, s, step), r)
  {
    hide EventsOf;
    var next := Apply(failRun, s, step);
    if |next.log| > |s.log| { OneMoreEvent(s.log, next.log[|s.log|], r); }
    if !step.Arrive? && step.r != r {
      assert EventsOf(next.log, r) == EventsOf(s.log, r);
      hide TellsStage;
    }
  }

  /** Over every run, a request is proved at most once, its proof succeeds or
      fails, and it causes a warmup exactly when its proof failed while its client
      was there. */
  lemma {:induction false} EventsTellTheStage(failRun: bool, states: seq<State>, steps: seq<Step>, n: nat, r: nat)
    requires IsExecution(failRun, states, steps) && n < |states|
    ensures var s := states[n];
            if r < |s.requests| then TellsStage(s.requests[r], r, EventsOf(s.log, r)) else EventsOf(s.log, r) == []
  {
    hide Enabled, Apply, TellsStage;
    if n == 0 {
    } else {
      var last := n - 1;
      EventsTellTheStage(failRun, states, steps, last, r);
      assert IsStep(failRun, states[last], steps[last], states[last + 1]);
      StepTellsRequest(failRun, states[last], steps[last], r);
    }
  }
}
