/** The attach launcher's supervision of its child process (client/src-tauri/src/main.rs).
    The receiver and the process table are the environment: a run is the sequence of values
    that the launcher's receives returned, each with the instant at which it returned. */
module Lifecycle {
  import opened Wrappers

  // ---------- messages, events, outcomes ----------

  datatype ExitStatus = Code(code: int) | Signalled(signal: int)

  datatype AttachState = Attached | Detaching | Detached | Unavailable | Unrecognised

  datatype Reason =
    | AttachClientExited
    | ExplicitClose
    | TerminalWasClosed
    | NativeClientDisconnected
    | ExitedUnexpectedly
    | WaitFailed
    | SignalFailed
    | ForceSignalFailed
    | TermTimeout
    | Unreaped

  datatype Outcome = Outcome(state: AttachState, reason: Reason, exit: Option<ExitStatus>, forced: bool)

  datatype Control =
    | Started(localSessionId: string, attachPid: nat)
    | Detach(localSessionId: string, controlToken: string)
    | Closed(localSessionId: string, outcome: Outcome)
    | Failed(localSessionId: string, message: string)

  datatype Event =
    | DetachRequested(message: Control)
    | TerminalClosed
    | ControlDisconnected
    | ChildExited(result: Option<ExitStatus>)  // None: the wait itself failed

  /** What one receive returned. An untimed receive never returns TimedOut. */
  datatype What = Received(event: Event) | TimedOut | HungUp

  datatype Receipt = Receipt(what: What, at: nat)

  datatype Signal = Term | Kill

  datatype Sent = Sent(signal: Signal, at: nat)

  /** How the operating system answers kill(2); a vanished process is not an error. */
  datatype Delivery = Delivered | NoSuchProcess | Refused

  datatype Env = Env(localSessionId: string, controlToken: string,
                     term: Delivery, kill: Delivery,
                     detachTimeout: nat, forceTimeout: nat)

  const ATTACH_DETACH_TIMEOUT := 5000
  const ATTACH_FORCE_TIMEOUT := 1000
  const ATTACH_CLOSE_RESPONSE_TIMEOUT := 7000

  predicate Authentic(env: Env, message: Control) {
    message == Detach(env.localSessionId, env.controlToken)
  }

  // ---------- the lifecycle as a transition function ----------

  datatype Life =
    | Watching(reason: Reason, deadline: Option<nat>, sent: seq<Sent>)
    | Forcing(until: nat, sent: seq<Sent>)
    | Ended(outcome: Outcome, sent: seq<Sent>, at: nat)

  const INITIAL := Watching(AttachClientExited, None, [])

  /** The shutdown cause that a receipt carries, if any. */
  function Cause(env: Env, what: What): Option<Reason> {
    match what
    case Received(DetachRequested(m)) => if Authentic(env, m) then Some(ExplicitClose) else None
    case Received(TerminalClosed) => Some(TerminalWasClosed)
    case Received(ControlDisconnected) => Some(NativeClientDisconnected)
    case HungUp => Some(NativeClientDisconnected)
    case _ => None
  }

  function ExitOutcome(reason: Reason, result: Option<ExitStatus>): Outcome {
    match result
    case None => Outcome(Unavailable, WaitFailed, None, false)
    case Some(status) =>
      if status == Code(0) && (reason == ExplicitClose || reason == TerminalWasClosed)
      then Outcome(Detached, reason, Some(status), false)
      else Outcome(Unavailable, ExitedUnexpectedly, Some(status), false)
  }

  function Shutdown(env: Env, life: Life, reason: Reason, at: nat): Life
    requires life.Watching?
  {
    if life.deadline.Some? then life.(reason := reason)
    else
      var sent := life.sent + [Sent(Term, at)];
      if env.term.Refused? then Ended(Outcome(Unavailable, SignalFailed, None, false), sent, at)
      else Watching(reason, Some(at + env.detachTimeout), sent)
  }

  function WatchStep(env: Env, life: Life, r: Receipt): Life
    requires life.Watching?
  {
    match r.what
    case TimedOut =>
      if life.deadline.None? then life
      else
        var sent := life.sent + [Sent(Kill, r.at)];
        if env.kill.Refused? then Ended(Outcome(Unavailable, ForceSignalFailed, None, false), sent, r.at)
        else Forcing(r.at + env.forceTimeout, sent)
    case HungUp =>
      if life.deadline.Some? then Ended(Outcome(Unavailable, WaitFailed, None, false), life.sent, r.at)
      else Shutdown(env, life, NativeClientDisconnected, r.at)
    case Received(ChildExited(result)) => Ended(ExitOutcome(life.reason, result), life.sent, r.at)
    case Received(_) =>
      var cause := Cause(env, r.what);
      if cause.Some? then Shutdown(env, life, cause.value, r.at) else life
  }

  function ForceStep(life: Life, r: Receipt): Life
    requires life.Forcing?
  {
    match r.what
    case Received(ChildExited(Some(status))) =>
      Ended(Outcome(Unavailable, TermTimeout, Some(status), true), life.sent, r.at)
    case Received(_) => life
    case _ => Ended(Outcome(Unavailable, Unreaped, None, true), life.sent, r.at)
  }

  function Step(env: Env, life: Life, r: Receipt): Life {
    match life
    case Watching(_, _, _) => WatchStep(env, life, r)
    case Forcing(_, _) => ForceStep(life, r)
    case Ended(_, _, _) => life
  }

  function Run(env: Env, trace: seq<Receipt>): Life {
    if trace == [] then INITIAL
    else Step(env, Run(env, trace[..|trace|-1]), trace[|trace|-1])
  }

  // ---------- the loops ----------

  method RequestChildExit(env: Env, deadline: Option<nat>, now: nat, sent: seq<Sent>)
    returns (newDeadline: Option<nat>, newSent: seq<Sent>, failure: Option<Outcome>)
    ensures deadline.Some? ==> newDeadline == deadline && newSent == sent && failure.None?
    ensures deadline.None? ==> newDeadline == Some(now + env.detachTimeout) && newSent == sent + [Sent(Term, now)]
    ensures failure.Some? <==> deadline.None? && env.term.Refused?
    ensures failure.Some? ==> failure.value == Outcome(Unavailable, SignalFailed, None, false)
  {
    newDeadline, newSent, failure := deadline, sent, None;
    if deadline.Some? { return; }
    newDeadline := Some(now + env.detachTimeout);
    newSent := sent + [Sent(Term, now)];
    if env.term.Refused? {
      failure := Some(Outcome(Unavailable, SignalFailed, None, false));
    }
  }

  method WaitForForcedExit(env: Env, trace: seq<Receipt>, start: nat)
    returns (outcome: Option<Outcome>, consumed: nat)
    requires start <= |trace|
    requires Run(env, trace[..start]).Forcing?
    ensures start <= consumed <= |trace|
    ensures outcome.None? ==> consumed == |trace| && Run(env, trace) == Run(env, trace[..start])
    ensures outcome.Some? ==> start < consumed
    ensures outcome.Some? ==> Run(env, trace[..consumed]) ==
                              Ended(outcome.value, Run(env, trace[..start]).sent, trace[consumed-1].at)
  {
    consumed := start;
    outcome := None;
    while consumed < |trace|
      invariant start <= consumed <= |trace|
      invariant outcome.None?
      invariant Run(env, trace[..consumed]) == Run(env, trace[..start])
    {
      var r := trace[consumed];
      consumed := consumed + 1;
      assert trace[..consumed][..consumed-1] == trace[..consumed-1];
      match r.what {
        case Received(ChildExited(Some(status))) =>
          outcome := Some(Outcome(Unavailable, TermTimeout, Some(status), true));
          return;
        case Received(_) =>
        case _ =>
          outcome := Some(Outcome(Unavailable, Unreaped, None, true));
          return;
      }
    }
    assert trace[..consumed] == trace;
  }

  /** The supervision loop. It blocks (outcome None) exactly when the trace runs out before it returns. */
  method RunAttachmentLifecycle(env: Env, trace: seq<Receipt>)
    returns (outcome: Option<Outcome>, sent: seq<Sent>, consumed: nat)
    ensures consumed <= |trace|
    ensures outcome.Some? ==>
              consumed > 0 && Run(env, trace[..consumed]) == Ended(outcome.value, sent, trace[consumed-1].at)
    ensures outcome.None? ==> consumed == |trace| && !Run(env, trace).Ended? && Run(env, trace).sent == sent
  {
    var reason := AttachClientExited;
    var deadline: Option<nat> := None;
    sent, consumed, outcome := [], 0, None;
    while consumed < |trace|
      invariant consumed <= |trace|
      invariant outcome.None?
      invariant Run(env, trace[..consumed]) == Watching(reason, deadline, sent)
    {
      var r := trace[consumed];
      consumed := consumed + 1;
      assert trace[..consumed][..consumed-1] == trace[..consumed-1];
      var event: Event;
      match r.what {
        case Received(e) => event := e;
        case TimedOut =>
          if deadline.None? { continue; }
          sent := sent + [Sent(Kill, r.at)];
          if env.kill.Refused? {
            outcome := Some(Outcome(Unavailable, ForceSignalFailed, None, false));
            return;
          }
          outcome, consumed := WaitForForcedExit(env, trace, consumed);
          return;
        case HungUp =>
          if deadline.Some? {
            outcome := Some(Outcome(Unavailable, WaitFailed, None, false));
            return;
          }
          event := ControlDisconnected;
      }
      match event {
        case DetachRequested(message) =>
          if Authentic(env, message) {
            reason := ExplicitClose;
            deadline, sent, outcome := RequestChildExit(env, deadline, r.at, sent);
            if outcome.Some? { return; }
          }
        case TerminalClosed =>
          reason := TerminalWasClosed;
          deadline, sent, outcome := RequestChildExit(env, deadline, r.at, sent);
          if outcome.Some? { return; }
        case ControlDisconnected =>
          reason := NativeClientDisconnected;
          deadline, sent, outcome := RequestChildExit(env, deadline, r.at, sent);
          if outcome.Some? { return; }
        case ChildExited(None) =>
          outcome := Some(Outcome(Unavailable, WaitFailed, None, false));
          return;
        case ChildExited(Some(status)) =>
          if status == Code(0) && (reason == ExplicitClose || reason == TerminalWasClosed) {
            outcome := Some(Outcome(Detached, reason, Some(status), false));
          } else {
            outcome := Some(Outcome(Unavailable, ExitedUnexpectedly, Some(status), false));
          }
          return;
      }
    }
    assert trace[..consumed] == trace;
  }
}
