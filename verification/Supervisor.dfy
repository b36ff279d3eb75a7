/** The supervisor of the ZisK coordinator, as interleaved steps of the wait for
    the child, of the signal handler and of every connection. */
module Supervisor {

  /** How the child ended. */
  datatype Outcome = ExitedWith(code: nat) | Killed(signal: nat) | WaitFailed

  /** A signalled child reports 128 plus the signal. */
  function ExitCode(outcome: Outcome): nat {
    match outcome
    case ExitedWith(code) => code
    case Killed(signal) => 128 + signal
    case WaitFailed => 1
  }

  datatype Child = Running | Exited(outcome: Outcome)

  /** A connection that sent the verb is accepted, asks the child to end, and is
      released by the handler once the end is announced. */
  datatype Connection = Reading | Refused | Dropped | Accepted | Waiting | Released {
    predicate SentVerb() {
      Accepted? || Waiting? || Released?
    }
  }

  datatype Signal = NoSignal | Signalled | Handled | Unneeded

  /** Where run is: in the wait for the child, past it, past the announcement of
      the end, past the read of the requested flag, or returned. */
  datatype Main = InWait | Waited(status: nat) | Announced(status: nat) | Loaded(status: nat, requested: bool)
                | Returned(code: nat)

  /** Early holds the connections whose verb was accepted before the flag was read. */
  datatype State = State(child: Child, killArmed: bool, requested: bool, ended: bool, main: Main, signal: Signal,
                         connections: seq<Connection>, early: set<nat>)

  datatype Step = Connect | ReadFails(c: nat) | ReadsOther(c: nat) | ReadsVerb(c: nat) | EndsChild(c: nat)
                | Release(c: nat)
                | SignalArrives | SignalEndsChild | SignalUnneeded
                | ChildExits(outcome: Outcome) | Kill
                | Wait | Announce | Load | Return

  const INITIAL := State(Running, false, false, false, InWait, NoSignal, [], {})

  const SIGKILL := 9

  predicate Is(s: State, c: nat, connection: Connection) {
    c < |s.connections| && s.connections[c] == connection
  }

  /** Nothing happens once the process has returned. */
  predicate Enabled(s: State, step: Step) {
    && !s.main.Returned?
    && match step
       case Connect => true
       case ReadFails(c) => Is(s, c, Reading)
       case ReadsOther(c) => Is(s, c, Reading)
       case ReadsVerb(c) => Is(s, c, Reading)
       case EndsChild(c) => Is(s, c, Accepted)
       case Release(c) => Is(s, c, Waiting) && s.ended
       case SignalArrives => s.signal.NoSignal?
       case SignalEndsChild => s.signal.Signalled?
       case SignalUnneeded => s.ended && (s.signal.NoSignal? || s.signal.Signalled?)
       case ChildExits(_) => s.child.Running?
       case Kill => s.killArmed && s.child.Running?
       case Wait => s.main.InWait? && s.child.Exited?
       case Announce => s.main.Waited?
       case Load => s.main.Announced?
       case Return => s.main.Loaded?
  }

  function Moved(s: State, c: nat, connection: Connection): State
    requires c < |s.connections|
  {
    s.(connections := s.connections[c := connection])
  }

  function Apply(s: State, step: Step): State
    requires Enabled(s, step)
  {
    match step
    case Connect => s.(connections := s.connections + [Reading])
    case ReadFails(c) => Moved(s, c, Dropped)
    case ReadsOther(c) => Moved(s, c, Refused)
    case ReadsVerb(c) =>
      Moved(s, c, Accepted).(requested := true, early := if s.main.Loaded? then s.early else s.early + {c})
    case EndsChild(c) => Moved(s, c, Waiting).(killArmed := true)
    case Release(c) => Moved(s, c, Released)
    case SignalArrives => s.(signal := Signalled)
    case SignalEndsChild => s.(signal := Handled, killArmed := true)
    case SignalUnneeded => s.(signal := Unneeded)
    case ChildExits(outcome) => s.(child := Exited(outcome))
    case Kill => s.(child := Exited(Killed(SIGKILL)))
    case Wait => s.(main := Waited(ExitCode(s.child.outcome)))
    case Announce => s.(main := Announced(s.main.status), ended := true)
    case Load => s.(main := Loaded(s.main.status, s.requested))
    case Return => s.(main := Returned(if s.main.requested && s.main.status == 0 then 1 else s.main.status))
  }

  // ---------- Every reachable state ----------

  ghost predicate IsExecution(states: seq<State>, steps: seq<Step>) {
    && |states| == |steps| + 1 && states[0] == INITIAL
    && forall i :: 0 <= i < |steps| ==> IsStep(states[i], steps[i], states[i + 1])
  }

  ghost predicate IsStep(s: State, step: Step, next: State) {
    Enabled(s, step) && next == Apply(s, step)
  }

  ghost predicate MainInv(s: State) {
    match s.main
    case InWait => !s.ended
    case Waited(status) => !s.ended && s.child.Exited? && status == ExitCode(s.child.outcome)
    case Announced(status) => s.ended && s.child.Exited? && status == ExitCode(s.child.outcome)
    case Loaded(status, requested) =>
      s.ended && s.child.Exited? && status == ExitCode(s.child.outcome) && (requested <==> s.early != {})
    case Returned(code) =>
      && s.ended && s.child.Exited?
      && code == if s.early != {} && ExitCode(s.child.outcome) == 0 then 1 else ExitCode(s.child.outcome)
  }

  ghost predicate ConnectionsInv(s: State) {
    && (forall c :: 0 <= c < |s.connections| && s.connections[c].Released? ==> s.ended)
    && (forall c :: 0 <= c < |s.connections| && s.connections[c].Waiting? ==> s.killArmed)
    && (s.signal.Handled? ==> s.killArmed)
    && (forall c :: c in s.early ==> c < |s.connections| && s.connections[c].SentVerb())
    && (!s.main.Loaded? && !s.main.Returned? ==>
       forall c :: 0 <= c < |s.connections| && s.connections[c].SentVerb() ==> c in s.early)
    && (!s.main.Loaded? && !s.main.Returned? ==> (s.requested <==> s.early != {}))
  }

  lemma StepKeepsMain(s: State, step: Step)
    requires Enabled(s, step) && MainInv(s) && ConnectionsInv(s)
    ensures MainInv(Apply(s, step))
  {
  }

  lemma StepKeepsConnections(s: State, step: Step)
    requires Enabled(s, step) && MainInv(s) && ConnectionsInv(s)
    ensures ConnectionsInv(Apply(s, step))
  {
    hide ExitCode;
  }

  lemma {:induction false} ExecutionKeepsInv(states: seq<State>, steps: seq<Step>, i: nat)
    requires IsExecution(states, steps) && i < |states|
    ensures MainInv(states[i]) && ConnectionsInv(states[i])
  {
    hide Enabled, Apply, MainInv, ConnectionsInv;
    if i == 0 {
      StartIsFine();
    } else {
      var last := i - 1;
      ExecutionKeepsInv(states, steps, last);
      assert IsStep(states[last], steps[last], states[last + 1]);
      StepKeepsMain(states[last], steps[last]);
      StepKeepsConnections(states[last], steps[last]);
    }
  }

  lemma StartIsFine()
    ensures MainInv(INITIAL) && ConnectionsInv(INITIAL)
  {
  }

  /** A connection whose verb was accepted is closed by its handler only after
      the child has exited. */
  lemma ReleasedAfterExit(states: seq<State>, steps: seq<Step>, i: nat, c: nat)
    requires IsExecution(states, steps) && i < |states| && Is(states[i], c, Released)
    ensures states[i].child.Exited?
  {
    ExecutionKeepsInv(states, steps, i);
  }

  /** The container reports success exactly when the child did and no verb was
      accepted before the flag was read. Any other code is the child's own, or 1
      for a clean end that a request brought about. */
  lemma CodeIsExact(states: seq<State>, steps: seq<Step>, i: nat)
    requires IsExecution(states, steps) && i < |states| && states[i].main.Returned?
    ensures var s := states[i];
            && s.child.Exited?
            && (s.main.code == 0 <==> ExitCode(s.child.outcome) == 0 && s.early == {})
            && (ExitCode(s.child.outcome) != 0 || s.early == {} ==> s.main.code == ExitCode(s.child.outcome))
            && ((forall c :: 0 <= c < |s.connections| ==> !s.connections[c].SentVerb()) ==>
               s.main.code == ExitCode(s.child.outcome))
            && match s.child.outcome
               case ExitedWith(code) => s.main.code == if code == 0 && s.early != {} then 1 else code
               case Killed(signal) => s.main.code == 128 + signal
               case WaitFailed => s.main.code == 1
  {
    ExecutionKeepsInv(states, steps, i);
    var s := states[i];
    if s.early != {} {
      var c :| c in s.early;
      assert s.connections[c].SentVerb();
    }
  }

  ghost predicate Reaches(s: State) {
    exists states, steps :: IsExecution(states, steps) && states[|states| - 1] == s
  }

  lemma ReachesStart()
    ensures Reaches(INITIAL)
  {
    assert IsExecution([INITIAL], []);
  }

  lemma ReachesNext(s: State, step: Step)
    requires Reaches(s) && Enabled(s, step)
    ensures Reaches(Apply(s, step))
  {
    hide Enabled, Apply;
    var states, steps :| IsExecution(states, steps) && states[|states| - 1] == s;
    var more, taken := states + [Apply(s, step)], steps + [step];
    forall i | 0 <= i < |taken| ensures IsStep(more[i], taken[i], more[i + 1]) {
      if i < |steps| { assert IsStep(states[i], steps[i], states[i + 1]); }
    }
    assert IsExecution(more, taken);
  }

  /** A verb accepted after that read is released like any other, and still the
      container may report success, which no restart policy replaces. */
  lemma LateVerbMaySucceed()
    ensures exists s :: Reaches(s) && s.main == Returned(0) && Is(s, 0, Released)
  {
    hide Reaches;
    var accepted := State(Exited(ExitedWith(0)), false, true, true, Loaded(0, false), NoSignal, [Accepted], {});
    ReachesAccepted(accepted);
    var waiting := accepted.(connections := [Waiting], killArmed := true);
    ReachesNext(accepted, EndsChild(0));
    assert Apply(accepted, EndsChild(0)) == waiting;
    var released := waiting.(connections := [Released]);
    ReachesNext(waiting, Release(0));
    assert Apply(waiting, Release(0)) == released;
    ReachesNext(released, Return);
    assert Is(Apply(released, Return), 0, Released);
  }

  lemma ReachesAccepted(accepted: State)
    requires accepted == State(Exited(ExitedWith(0)), false, true, true, Loaded(0, false), NoSignal, [Accepted], {})
    ensures Reaches(accepted)
  {
    hide Reaches;
    var announced := State(Exited(ExitedWith(0)), false, false, true, Announced(0), NoSignal, [Reading], {});
    ReachesAnnounced(announced);
    var loaded := announced.(main := Loaded(0, false));
    ReachesNext(announced, Load);
    ReachesNext(loaded, ReadsVerb(0));
    assert Apply(loaded, ReadsVerb(0)) == accepted;
  }

  lemma ReachesAnnounced(announced: State)
    requires announced == State(Exited(ExitedWith(0)), false, false, true, Announced(0), NoSignal, [Reading], {})
    ensures Reaches(announced)
  {
    hide Reaches;
    ReachesStart();
    var connected := INITIAL.(connections := [Reading]);
    ReachesNext(INITIAL, Connect);
    assert Apply(INITIAL, Connect) == connected;
    var exited := connected.(child := Exited(ExitedWith(0)));
    ReachesNext(connected, ChildExits(ExitedWith(0)));
    var waited := exited.(main := Waited(0));
    ReachesNext(exited, Wait);
    ReachesNext(waited, Announce);
  }

  // ---------- A request ends the supervisor ----------

  /** What is left to do. No connection and no signal adds to it. */
  function Rank(s: State): nat {
    (if s.killArmed then 0 else 1) + (if s.child.Running? then 1 else 0)
    + match s.main
      case InWait => 4
      case Waited(_) => 3
      case Announced(_) => 2
      case Loaded(_, _) => 1
      case Returned(_) => 0
  }

  lemma RankNeverGrows(s: State, step: Step)
    requires Enabled(s, step)
    ensures Rank(Apply(s, step)) <= Rank(s)
  {
  }

  /** Once a verb is accepted, until the supervisor has returned, it always has a
      step of its own that brings the end nearer. */
  lemma RequestNeverSticks(states: seq<State>, steps: seq<Step>, i: nat, c: nat)
    requires IsExecution(states, steps) && i < |states| && c < |states[i].connections|
             && states[i].connections[c].SentVerb()
    ensures states[i].main.Returned?
            || exists step :: Enabled(states[i], step) && step in {EndsChild(c), Kill, Wait, Announce, Load, Return}
                              && Rank(Apply(states[i], step)) < Rank(states[i])
  {
    ExecutionKeepsInv(states, steps, i);
    var s := states[i];
    if !s.main.Returned? {
      var step := match s.main
        case InWait => if s.child.Exited? then Wait else if s.killArmed then Kill else EndsChild(c)
        case Waited(_) => Announce
        case Announced(_) => Load
        case Loaded(_, _) => Return;
      assert Enabled(s, step) && Rank(Apply(s, step)) < Rank(s);
    }
  }

  /** A stop signal that arrives while the supervisor waits for the child brings
      the end nearer in the same way. */
  lemma SignalNeverSticks(states: seq<State>, steps: seq<Step>, i: nat)
    requires IsExecution(states, steps) && i < |states|
             && (states[i].signal.Signalled? || states[i].signal.Handled?)
    ensures states[i].main.Returned?
            || exists step :: Enabled(states[i], step) && step in {SignalEndsChild, Kill, Wait, Announce, Load, Return}
                              && Rank(Apply(states[i], step)) < Rank(states[i])
  {
    ExecutionKeepsInv(states, steps, i);
    var s := states[i];
    if !s.main.Returned? {
      var step := match s.main
        case InWait => if s.child.Exited? then Wait else if s.killArmed then Kill else SignalEndsChild
        case Waited(_) => Announce
        case Announced(_) => Load
        case Loaded(_, _) => Return;
      assert Enabled(s, step) && Rank(Apply(s, step)) < Rank(s);
    }
  }
}
