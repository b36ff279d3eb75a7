/** Submitting a proof until a cluster admits it, and what the wait does to the
    measured proving time. */
module Admission {
  import opened Wrappers

  /** One attempt, with the stamps of its begin and its end, and whether the
      context ends in the pause after it. */
  datatype Attempt<A> = Attempt(began: int, ended: int, answer: A, contextEnds: bool)

  datatype Verdict = Admitted | Retry | Stop

  /** The attempt that landed and how long the refused ones took, the attempt
      that ended the submission, or none yet. */
  datatype Submission = Landed(attempt: nat, submitWait: int) | Refused(attempt: nat) | TimedOut(attempt: nat)
                      | StillTrying

  function Submitted<A>(verdict: A -> Verdict, started: int, attempts: seq<Attempt<A>>, k: nat): Submission
    requires k <= |attempts|
    decreases |attempts| - k
  {
    if k == |attempts| then StillTrying
    else
      match verdict(attempts[k].answer)
      case Admitted => Landed(k, attempts[k].began - started)
      case Stop => Refused(k)
      case Retry => if attempts[k].contextEnds then TimedOut(k) else Submitted(verdict, started, attempts, k + 1)
  }

  predicate Contains(text: string, part: string) {
    exists i :: 0 <= i <= |text| && part <= text[i..]
  }

  /** The text is the part with something before and something after it. */
  ghost predicate Holds(text: string, part: string) {
    exists before: string, after: string :: text == before + part + after
  }

  lemma ContainsIsExact(text: string, part: string)
    ensures Contains(text, part) <==> Holds(text, part)
  {
    if Contains(text, part) {
      var i :| 0 <= i <= |text| && part <= text[i..];
      assert text == text[..i] + part + text[i + |part|..];
    }
    if Holds(text, part) {
      var before: string, after: string :| text == before + part + after;
      assert text[|before|..] == part + after;
    }
  }

  // ---------- OpenVM ----------

  datatype Http = NoAnswer | Answer(status: nat, body: string)

  datatype OpenvmAnswer = OpenvmAnswer(upload: Http, start: Http)

  datatype OpenvmError = Unreachable | Busy | NotReady | Permanent

  function ClassifyStartError(code: nat, body: string): OpenvmError {
    if code == 409 && Contains(body, "program_not_in_loadout") then Permanent
    else if code == 409 then Busy
    else if code == 503 then NotReady
    else if code == 500 && (Contains(body, "failed to accept work") || Contains(body, "upload input to workers"))
      then NotReady
    else Permanent
  }

  function UploadInput(upload: Http): Option<OpenvmError> {
    if upload.NoAnswer? then Some(Unreachable)
    else if upload.status == 503 then Some(NotReady)
    else if upload.status < 200 || upload.status > 299 then Some(Permanent)
    else None
  }

  function StartProof(start: Http): Option<OpenvmError> {
    if start.NoAnswer? then Some(Unreachable)
    else if 200 <= start.status <= 299 then None
    else Some(ClassifyStartError(start.status, start.body))
  }

  function OpenvmVerdict(answer: OpenvmAnswer): Verdict {
    var upload, start := UploadInput(answer.upload), StartProof(answer.start);
    var error := if upload.Some? then upload else start;
    if error.None? then Admitted else if error.value.Permanent? then Stop else Retry
  }

  predicate IsSuccess(http: Http) {
    http.Answer? && http.status / 100 == 2
  }

  /** A cluster that cannot be reached, is not ready, is busy with another proof,
      or has not got its workers yet is tried again. A 409 on a program that its
      loadout lacks is final, and so is every other answer. */
  lemma OpenvmVerdictIsExact(answer: OpenvmAnswer)
    ensures OpenvmVerdict(answer) == Admitted <==> IsSuccess(answer.upload) && IsSuccess(answer.start)
    ensures OpenvmVerdict(answer) == Retry <==>
              || answer.upload.NoAnswer?
              || answer.upload.status == 503
              || (IsSuccess(answer.upload)
                  && match answer.start
                     case NoAnswer => true
                     case Answer(status, body) =>
                       || status == 503
                       || (status == 409 && !Holds(body, "program_not_in_loadout"))
                       || (status == 500
                           && (Holds(body, "failed to accept work") || Holds(body, "upload input to workers"))))
  {
    if answer.start.Answer? {
      var body := answer.start.body;
      ContainsIsExact(body, "program_not_in_loadout");
      ContainsIsExact(body, "failed to accept work");
      ContainsIsExact(body, "upload input to workers");
    }
    hide Contains, Holds;
  }

  method SubmitProof(started: int, attempts: seq<Attempt<OpenvmAnswer>>) returns (submission: Submission)
    ensures submission == Submitted(OpenvmVerdict, started, attempts, 0)
  {
    hide ClassifyStartError;
    var k := 0;
    while k < |attempts|
      invariant k <= |attempts|
      invariant Submitted(OpenvmVerdict, started, attempts, k) == Submitted(OpenvmVerdict, started, attempts, 0)
    {
      var submitWait := attempts[k].began - started;
      var error := UploadInput(attempts[k].answer.upload);
      if error.None? {
        error := StartProof(attempts[k].answer.start);
      }
      if error.None? { return Landed(k, submitWait); }
      if error.value.Permanent? { return Refused(k); }
      if attempts[k].contextEnds { return TimedOut(k); }
      k := k + 1;
    }
    return StillTrying;
  }

  // ---------- ZisK ----------

  const MAX_MESSAGE_BYTES := 134217728

  datatype Code = Unavailable | Internal | OtherCode

  /** A status error, and whether the setup that it may ask for succeeds. */
  datatype ZiskAnswer = Accepted | StatusError(code: Code, message: string, setupSucceeds: bool) | NotAStatus

  datatype ZiskError = SetupNotDone | ClusterUnavailable | OtherError

  function ClassifySubmitError(answer: ZiskAnswer): ZiskError {
    if !answer.StatusError? then OtherError
    else if Contains(answer.message, "setup not done") then SetupNotDone
    else if answer.code != OtherCode then ClusterUnavailable
    else OtherError
  }

  function ZiskVerdict(framedBytes: nat): ZiskAnswer -> Verdict {
    (answer: ZiskAnswer) =>
      if framedBytes > MAX_MESSAGE_BYTES then Stop
      else if answer.Accepted? then Admitted
      else match ClassifySubmitError(answer)
        case SetupNotDone => if answer.setupSucceeds then Retry else Stop
        case ClusterUnavailable => Retry
        case OtherError => Stop
  }

  /** An input over 128 MiB is never sent. A missing setup is done and then tried
      again, whatever its code, and a cluster that is down or fails is tried again. */
  lemma ZiskVerdictIsExact(framedBytes: nat, answer: ZiskAnswer)
    ensures ZiskVerdict(framedBytes)(answer) == Admitted <==> framedBytes <= 128 * 1024 * 1024 && answer == Accepted
    ensures ZiskVerdict(framedBytes)(answer) == Retry <==>
              && framedBytes <= 128 * 1024 * 1024
              && match answer
                 case Accepted => false
                 case NotAStatus => false
                 case StatusError(code, message, setupSucceeds) =>
                   if Holds(message, "setup not done") then setupSucceeds else code == Unavailable || code == Internal
  {
    if answer.StatusError? { ContainsIsExact(answer.message, "setup not done"); }
    hide Contains, Holds;
  }

  method SubmitProveJob(framedBytes: nat, started: int, attempts: seq<Attempt<ZiskAnswer>>)
    returns (submission: Submission)
    ensures submission == Submitted(ZiskVerdict(framedBytes), started, attempts, 0)
  {
    hide Contains;
    var k := 0;
    while k < |attempts|
      invariant k <= |attempts|
      invariant Submitted(ZiskVerdict(framedBytes), started, attempts, k)
                == Submitted(ZiskVerdict(framedBytes), started, attempts, 0)
    {
      var submitWait := attempts[k].began - started;
      var answer := attempts[k].answer;
      if framedBytes > MAX_MESSAGE_BYTES { return Refused(k); }
      if answer.Accepted? { return Landed(k, submitWait); }
      var error := ClassifySubmitError(answer);
      if error.OtherError? || (error.SetupNotDone? && !answer.setupSucceeds) { return Refused(k); }
      if attempts[k].contextEnds { return TimedOut(k); }
      k := k + 1;
    }
    return StillTrying;
  }

  // ---------- What the wait accounts for ----------

  /** Refused for now, and tried again. */
  predicate IsRetried<A>(verdict: A -> Verdict, attempt: Attempt<A>) {
    verdict(attempt.answer).Retry? && !attempt.contextEnds
  }

  /** The attempt that lands is the first one admitted, after attempts that were
      all refused for now, and the wait runs up to its begin. */
  lemma {:induction false} LandsAtFirstAdmission<A>(verdict: A -> Verdict, started: int, attempts: seq<Attempt<A>>,
                          k: nat, landing: nat, submitWait: int)
    requires k <= |attempts|
    ensures Submitted(verdict, started, attempts, k) == Landed(landing, submitWait) <==>
              && k <= landing < |attempts| && verdict(attempts[landing].answer).Admitted?
              && (forall j :: k <= j < landing ==> IsRetried(verdict, attempts[j]))
              && submitWait == attempts[landing].began - started
    decreases |attempts| - k
  {
    if k < |attempts| {
      LandsAtFirstAdmission(verdict, started, attempts, k + 1, landing, submitWait);
    }
  }

  /** It ends unadmitted at the first attempt that is refused for good, or that
      is refused for now as the context ends, and else it goes on. */
  lemma {:induction false} EndsAtFirstFinal<A>(verdict: A -> Verdict, started: int, attempts: seq<Attempt<A>>, k: nat,
                                               at: nat)
    requires k <= |attempts|
    ensures Submitted(verdict, started, attempts, k) == Refused(at) <==>
              && k <= at < |attempts| && verdict(attempts[at].answer) == Stop
              && forall j :: k <= j < at ==> IsRetried(verdict, attempts[j])
    ensures Submitted(verdict, started, attempts, k) == TimedOut(at) <==>
              && k <= at < |attempts| && verdict(attempts[at].answer) == Retry && attempts[at].contextEnds
              && forall j :: k <= j < at ==> IsRetried(verdict, attempts[j])
    ensures Submitted(verdict, started, attempts, k) == StillTrying <==>
              forall j :: k <= j < |attempts| ==> IsRetried(verdict, attempts[j])
    decreases |attempts| - k
  {
    if k < |attempts| { EndsAtFirstFinal(verdict, started, attempts, k + 1, at); }
  }

  /** The clock never runs back. */
  ghost predicate InOrder<A>(started: int, attempts: seq<Attempt<A>>) {
    && (forall j :: 0 <= j < |attempts| ==> started <= attempts[j].began <= attempts[j].ended)
    && (forall i, j :: 0 <= i < j < |attempts| ==> attempts[i].ended <= attempts[j].began)
  }

  /** How long the leading count attempts took. */
  function Taken<A>(attempts: seq<Attempt<A>>, count: nat): int
    requires count <= |attempts|
  {
    if count == 0 then 0 else Taken(attempts, count - 1) + attempts[count - 1].ended - attempts[count - 1].began
  }

  lemma {:induction false} TakenFitsBefore<A>(started: int, attempts: seq<Attempt<A>>, count: nat)
    requires InOrder(started, attempts) && count < |attempts|
    ensures 0 <= Taken(attempts, count) <= attempts[count].began - started
  {
    if count > 0 {
      TakenFitsBefore(started, attempts, count - 1);
      assert attempts[count - 1].ended <= attempts[count].began;
    }
  }

  /** The measured time of a proof whose submission landed is the time from call
      to finish less the wait. It is never negative, it holds the whole landing
      attempt, and the wait, which it leaves out, holds every refused one. */
  lemma MeasuredTimeExcludesRefusals<A>(verdict: A -> Verdict, called: int, started: int, attempts: seq<Attempt<A>>,
                                        finished: int, landing: nat, submitWait: int)
    requires called <= started && InOrder(started, attempts)
    requires Submitted(verdict, started, attempts, 0) == Landed(landing, submitWait)
    requires landing < |attempts| && attempts[landing].ended <= finished
    ensures var provingTime := finished - called - submitWait;
            && provingTime == (started - called) + (finished - attempts[landing].began)
            && provingTime >= attempts[landing].ended - attempts[landing].began >= 0
            && 0 <= Taken(attempts, landing) <= submitWait
            && forall j :: 0 <= j < landing ==>
                 started <= attempts[j].began && attempts[j].ended <= started + submitWait
  {
    LandsAtFirstAdmission(verdict, started, attempts, 0, landing, submitWait);
    TakenFitsBefore(started, attempts, landing);
  }
}
