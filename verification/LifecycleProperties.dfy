/** What every run of the attach launcher's lifecycle satisfies. */
module LifecycleProperties {
  import opened Wrappers
  import opened Lifecycle

  // ---------- what a receiver can return ----------

  function Clock(trace: seq<Receipt>): nat {
    if trace == [] then 0 else trace[|trace|-1].at
  }

  predicate HungUpLast(trace: seq<Receipt>) {
    trace != [] && trace[|trace|-1].what.HungUp?
  }

  /** The instant at which the pending receive gives up waiting, if it is a timed one. */
  function Limit(life: Life): Option<nat> {
    match life
    case Watching(_, deadline, _) => deadline
    case Forcing(until, _) => Some(until)
    case Ended(_, _, _) => None
  }

  /** The traces a receiver can produce: time does not run backwards, a disconnection is final,
      and a receive times out only if it is timed and its limit has been reached. */
  predicate FromReceiver(env: Env, trace: seq<Receipt>) {
    trace == [] ||
    var before, last := trace[..|trace|-1], trace[|trace|-1];
    && FromReceiver(env, before)
    && Clock(before) <= last.at
    && (HungUpLast(before) ==> last.what.HungUp?)
    && (last.what.TimedOut? && !Run(env, before).Ended? ==>
          Limit(Run(env, before)).Some? && Limit(Run(env, before)).value <= last.at)
  }

  lemma {:induction false} PrefixFromReceiver(env: Env, trace: seq<Receipt>, n: nat)
    requires n <= |trace| && FromReceiver(env, trace)
    ensures FromReceiver(env, trace[..n])
    decreases |trace|
  {
    if n == |trace| {
      assert trace[..n] == trace;
    } else {
      assert trace[..|trace|-1][..n] == trace[..n];
      PrefixFromReceiver(env, trace[..|trace|-1], n);
    }
  }

  /** Once ended, nothing that arrives later changes the outcome. */
  lemma {:induction false} EndedIsFinal(env: Env, trace: seq<Receipt>, n: nat)
    requires n <= |trace| && Run(env, trace[..n]).Ended?
    ensures Run(env, trace) == Run(env, trace[..n])
    decreases |trace|
  {
    if n == |trace| {
      assert trace[..n] == trace;
    } else {
      assert trace[..|trace|-1][..n] == trace[..n];
      EndedIsFinal(env, trace[..|trace|-1], n);
    }
  }

  // ---------- when the outcome is `detached` ----------

  /** The most recent shutdown cause among the receipts: a detach request with this session's id and token, a
      closed terminal, or a lost control stream. */
  function LatestCause(env: Env, trace: seq<Receipt>): Reason {
    if trace == [] then AttachClientExited
    else
      match trace[|trace|-1].what
      case Received(DetachRequested(Detach(id, token))) =>
        if id == env.localSessionId && token == env.controlToken then ExplicitClose
        else LatestCause(env, trace[..|trace|-1])
      case Received(TerminalClosed) => TerminalWasClosed
      case Received(ControlDisconnected) => NativeClientDisconnected
      case HungUp => NativeClientDisconnected
      case _ => LatestCause(env, trace[..|trace|-1])
  }

  lemma LatestCauseSnoc(env: Env, trace: seq<Receipt>)
    requires trace != []
    ensures var cause := Cause(env, trace[|trace|-1].what);
            && LatestCause(env, trace) == (if cause.Some? then cause.value else LatestCause(env, trace[..|trace|-1]))
            && (cause.Some? ==> cause.value != AttachClientExited)
  {
  }

  predicate OrdinaryEvent(r: Receipt) {
    r.what.Received? && !r.what.event.ChildExited?
  }

  /** The k-th receipt is a successful child exit, no deadline passed and no exit came before it, and
      the latest shutdown cause before it is an authenticated detach or a closed terminal. */
  predicate DetachesAt(env: Env, trace: seq<Receipt>, k: nat) {
    && k < |trace|
    && trace[k].what == Received(ChildExited(Some(Code(0))))
    && (forall j :: 0 <= j < k ==> OrdinaryEvent(trace[j]))
    && (LatestCause(env, trace[..k]) == ExplicitClose || LatestCause(env, trace[..k]) == TerminalWasClosed)
    && !env.term.Refused?
  }

  lemma {:induction false} OrdinaryPrefix(env: Env, trace: seq<Receipt>)
    requires forall j :: 0 <= j < |trace| ==> OrdinaryEvent(trace[j])
    ensures var life := Run(env, trace);
            if env.term.Refused? && LatestCause(env, trace) != AttachClientExited
            then life.Ended? && life.outcome.reason == SignalFailed
            else life.Watching? && life.reason == LatestCause(env, trace)
                 && (life.deadline.Some? <==> life.reason != AttachClientExited)
  {
    if trace != [] {
      OrdinaryPrefix(env, trace[..|trace|-1]);
    }
  }

  lemma {:induction false} DetachedOnlyAt(env: Env, trace: seq<Receipt>) returns (k: nat)
    requires FromReceiver(env, trace)
    requires Run(env, trace).Ended? && Run(env, trace).outcome.state == Detached
    ensures DetachesAt(env, trace, k)
  {
    var before := trace[..|trace|-1];
    if Run(env, before).Ended? {
      k := DetachedOnlyAt(env, before);
      assert before[..k] == trace[..k];
    } else {
      k := |trace| - 1;
      WatchingMeansOrdinary(env, before);
      OrdinaryPrefix(env, before);
      assert trace[..k] == before;
      forall j | 0 <= j < k ensures OrdinaryEvent(trace[j]) {
        assert trace[j] == before[j];
      }
    }
  }

  lemma {:induction false} WatchingMeansOrdinary(env: Env, trace: seq<Receipt>)
    requires FromReceiver(env, trace)
    requires Run(env, trace).Watching?
    ensures (forall j :: 0 <= j < |trace| ==> OrdinaryEvent(trace[j])) ||
            (Run(env, trace).reason == NativeClientDisconnected && HungUpLast(trace))
  {
    if trace != [] {
      WatchingMeansOrdinary(env, trace[..|trace|-1]);
    }
  }

  lemma DetachesThere(env: Env, trace: seq<Receipt>, k: nat)
    requires FromReceiver(env, trace) && DetachesAt(env, trace, k)
    ensures Run(env, trace).Ended?
    ensures Run(env, trace).outcome == Outcome(Detached, LatestCause(env, trace[..k]), Some(Code(0)), false)
    ensures Run(env, trace).at == trace[k].at && |Run(env, trace).sent| == 1
  {
    OrdinaryPrefix(env, trace[..k]);
    assert trace[..k+1][..k] == trace[..k];
    PrefixFromReceiver(env, trace, k);
    SignalsSoFar(env, trace[..k]);
    EndedIsFinal(env, trace, k + 1);
  }

  /** The outcome is `detached` exactly when some receipt detaches, and then it is that receipt's. */
  lemma DetachedExactly(env: Env, trace: seq<Receipt>)
    requires FromReceiver(env, trace)
    ensures (Run(env, trace).Ended? && Run(env, trace).outcome.state == Detached)
            <==> exists k: nat :: DetachesAt(env, trace, k)
    ensures forall k: nat :: DetachesAt(env, trace, k) ==>
              && Run(env, trace).Ended?
              && Run(env, trace).outcome == Outcome(Detached, LatestCause(env, trace[..k]), Some(Code(0)), false)
              && Run(env, trace).at == trace[k].at
              && |Run(env, trace).sent| == 1
  {
    forall k: nat | DetachesAt(env, trace, k)
      ensures Run(env, trace).Ended?
      ensures Run(env, trace).outcome == Outcome(Detached, LatestCause(env, trace[..k]), Some(Code(0)), false)
      ensures Run(env, trace).at == trace[k].at
      ensures |Run(env, trace).sent| == 1
    {
      DetachesThere(env, trace, k);
    }
    if Run(env, trace).Ended? && Run(env, trace).outcome.state == Detached {
      var k := DetachedOnlyAt(env, trace);
    }
  }

  // ---------- signals ----------

  /** The instant of the first shutdown cause among the receipts handled before the lifecycle ended. */
  function FirstCause(env: Env, trace: seq<Receipt>): Option<nat> {
    if trace == [] then None
    else
      var before, last := trace[..|trace|-1], trace[|trace|-1];
      if FirstCause(env, before).Some? then FirstCause(env, before)
      else if Run(env, before).Watching? && Cause(env, last.what).Some? then Some(last.at)
      else None
  }

  predicate ExpiredAt(trace: seq<Receipt>, at: nat) {
    exists i :: 0 <= i < |trace| && trace[i] == Receipt(TimedOut, at)
  }

  predicate SignalPlan(env: Env, trace: seq<Receipt>) {
    var life, first := Run(env, trace), FirstCause(env, trace);
    if first.None? then life.sent == [] && !life.Forcing? && (life.Watching? ==> life.deadline.None?)
    else
      && (life.Watching? ==>
            life.sent == [Sent(Term, first.value)] && life.deadline == Some(first.value + env.detachTimeout))
      && (life.Forcing? ==> |life.sent| == 2 && life.until == life.sent[1].at + env.forceTimeout)
      && (|life.sent| == 1 || |life.sent| == 2)
      && life.sent[0] == Sent(Term, first.value)
      && (|life.sent| == 2 ==> life.sent[1].signal == Kill && first.value + env.detachTimeout <= life.sent[1].at)
      && (|life.sent| == 2 ==> !life.Watching? && ExpiredAt(trace, life.sent[1].at))
  }

  /** SIGTERM is attempted once, at the first shutdown cause, and never without one; SIGKILL at most
      once, only after SIGTERM, and not before the detach deadline has passed; then the force deadline runs. */
  lemma {:induction false} SignalsSoFar(env: Env, trace: seq<Receipt>)
    requires FromReceiver(env, trace)
    ensures SignalPlan(env, trace)
  {
    if trace != [] {
      var before := trace[..|trace|-1];
      SignalsSoFar(env, before);
      var last := trace[|trace|-1];
      var life := Run(env, trace);
      if FirstCause(env, trace).Some? && |life.sent| == 2 {
        if Run(env, before).sent == life.sent {
          var i :| 0 <= i < |before| && before[i] == Receipt(TimedOut, life.sent[1].at);
          assert trace[i] == before[i];
        } else {
          assert trace[|trace|-1] == Receipt(TimedOut, life.sent[1].at);
        }
      }
    }
  }

  // ---------- mismatched control messages are invisible ----------

  predicate Mismatched(env: Env, r: Receipt) {
    r.what.Received? && r.what.event.DetachRequested? && !Authentic(env, r.what.event.message)
  }

  function WithoutMismatched(env: Env, trace: seq<Receipt>): seq<Receipt> {
    if trace == [] then []
    else
      var rest := WithoutMismatched(env, trace[..|trace|-1]);
      if Mismatched(env, trace[|trace|-1]) then rest else rest + [trace[|trace|-1]]
  }

  /** Deleting every mismatched message changes neither outcome nor signals, nor their instants. */
  lemma {:induction false} MismatchedMessagesAreInvisible(env: Env, trace: seq<Receipt>)
    ensures Run(env, WithoutMismatched(env, trace)) == Run(env, trace)
    ensures forall r :: r in WithoutMismatched(env, trace) ==> !Mismatched(env, r)
  {
    if trace != [] {
      MismatchedMessagesAreInvisible(env, trace[..|trace|-1]);
      var rest := WithoutMismatched(env, trace[..|trace|-1]);
      assert (rest + [trace[|trace|-1]])[..|rest|] == rest;
    }
  }

  // ---------- how long it takes ----------

  function Sum(lags: seq<nat>): nat {
    if lags == [] then 0 else Sum(lags[..|lags|-1]) + lags[|lags|-1]
  }

  function Max(a: nat, b: nat): nat {
    if a < b then b else a
  }

  /** Scheduling: the i-th receive returns at most lags[i] after its limit (or after it was started,
      when the limit had already passed). */
  predicate Prompt(env: Env, trace: seq<Receipt>, lags: seq<nat>)
    requires |lags| == |trace|
  {
    trace == [] ||
    var before, last := trace[..|trace|-1], trace[|trace|-1];
    && Prompt(env, before, lags[..|trace|-1])
    && (Limit(Run(env, before)).Some? ==>
          last.at <= Max(Clock(before), Limit(Run(env, before)).value) + lags[|trace|-1])
  }

  /** From the first shutdown cause on, the lifecycle is over within the detach timeout, the force
      timeout and whatever the scheduler added, however many events are queued. */
  lemma {:induction false} LifecycleIsBounded(env: Env, trace: seq<Receipt>, lags: seq<nat>)
    requires FromReceiver(env, trace)
    requires |lags| == |trace| && Prompt(env, trace, lags)
    requires FirstCause(env, trace).Some?
    ensures var bound := FirstCause(env, trace).value + env.detachTimeout + Sum(lags);
            match Run(env, trace)
            case Watching(_, _, _) => Clock(trace) <= bound
            case Forcing(until, _) => until <= bound + env.forceTimeout && Clock(trace) <= bound + env.forceTimeout
            case Ended(_, _, at) => at <= bound + env.forceTimeout
  {
    var before, last, n := trace[..|trace|-1], trace[|trace|-1], |trace| - 1;
    SignalsSoFar(env, trace);
    SignalsSoFar(env, before);
    if FirstCause(env, before).Some? {
      LifecycleIsBounded(env, before, lags[..n]);
    }
  }

  function CountReceived(trace: seq<Receipt>): nat {
    if trace == [] then 0
    else CountReceived(trace[..|trace|-1]) + (if trace[|trace|-1].what.Received? then 1 else 0)
  }

  /** It does return: of the receives that yield no event, the second one always ends the lifecycle. */
  lemma {:induction false} LifecycleReturns(env: Env, trace: seq<Receipt>)
    requires FromReceiver(env, trace)
    ensures |trace| >= CountReceived(trace) + 2 ==> Run(env, trace).Ended?
    ensures |trace| == CountReceived(trace) + 1 && Run(env, trace).Watching? ==>
              HungUpLast(trace) && Run(env, trace).deadline.Some?
    ensures |trace| == CountReceived(trace) ==> !HungUpLast(trace) && !Run(env, trace).Forcing?
    ensures CountReceived(trace) <= |trace|
  {
    if trace != [] {
      LifecycleReturns(env, trace[..|trace|-1]);
    }
  }
}
