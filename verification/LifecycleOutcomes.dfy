/** Which outcome each run of the attach launcher's lifecycle ends in: every outcome is told from the receipts. */
module LifecycleOutcomes {
  import opened Wrappers
  import opened Lifecycle
  import opened LifecycleProperties

  // ---------- told from the receipts ----------

  /** Before the n-th receipt nothing but messages, closed terminals and lost streams was received. */
  predicate Quiet(trace: seq<Receipt>, n: nat) {
    n <= |trace| && forall j :: 0 <= j < n ==> OrdinaryEvent(trace[j])
  }

  /** A shutdown cause came before the n-th receipt. */
  predicate ShutBefore(env: Env, trace: seq<Receipt>, n: nat)
    requires n <= |trace|
  {
    LatestCause(env, trace[..n]) != AttachClientExited
  }

  predicate IsExit(r: Receipt) {
    r.what.Received? && r.what.event.ChildExited?
  }

  /** The child's exit is the n-th receipt, and until then the lifecycle was watching. */
  predicate ExitsAt(env: Env, trace: seq<Receipt>, n: nat) {
    && n < |trace| && Quiet(trace, n) && IsExit(trace[n])
    && (env.term.Refused? ==> !ShutBefore(env, trace, n))
  }

  /** The first shutdown cause is the n-th receipt, and SIGTERM is refused. */
  predicate TermRefusedAt(env: Env, trace: seq<Receipt>, n: nat) {
    env.term.Refused? && n < |trace| && Quiet(trace, n) && !ShutBefore(env, trace, n) && ShutBefore(env, trace, n + 1)
  }

  /** The receiver hangs up when a shutdown is under way; the hang-up may itself have been its cause. */
  predicate HangsUpAt(env: Env, trace: seq<Receipt>, n: nat) {
    && !env.term.Refused? && n < |trace| && trace[n].what.HungUp? && ShutBefore(env, trace, n)
    && (Quiet(trace, n) || (n > 0 && Quiet(trace, n - 1) && !ShutBefore(env, trace, n - 1) && trace[n-1].what.HungUp?))
  }

  /** The detach deadline passes. */
  predicate ExpiresAt(env: Env, trace: seq<Receipt>, k: nat) {
    && !env.term.Refused? && k < |trace| && trace[k].what.TimedOut? && ShutBefore(env, trace, k)
    && Quiet(trace, k)
  }

  /** A receipt that ends the wait for a killed child: its reaped exit, a timeout or a hang-up. */
  predicate Decides(r: Receipt) {
    r.what.TimedOut? || r.what.HungUp? || (IsExit(r) && r.what.event.result.Some?)
  }

  /** After the deadline passed at k and SIGKILL was delivered, the n-th receipt is the first that decides. */
  predicate ForcedAt(env: Env, trace: seq<Receipt>, k: nat, n: nat) {
    && ExpiresAt(env, trace, k) && !env.kill.Refused? && k < n < |trace| && Decides(trace[n])
    && forall j :: k < j < n ==> !Decides(trace[j])
  }

  /** The n-th receipt is the last that is handled, and ends the lifecycle in this outcome. */
  ghost predicate EndsAt(env: Env, trace: seq<Receipt>, n: nat, o: Outcome) {
    || (ExitsAt(env, trace, n) && o == OutcomeOfExit(trace[n].what.event.result, LatestCause(env, trace[..n])))
    || (TermRefusedAt(env, trace, n) && o == Outcome(Unavailable, SignalFailed, None, false))
    || (HangsUpAt(env, trace, n) && o == Outcome(Unavailable, WaitFailed, None, false))
    || (ExpiresAt(env, trace, n) && env.kill.Refused? && o == Outcome(Unavailable, ForceSignalFailed, None, false))
    || (exists k: nat :: ForcedAt(env, trace, k, n) && o == OutcomeOfForce(trace[n]))
  }

  function OutcomeOfExit(result: Option<ExitStatus>, cause: Reason): Outcome {
    if result.None? then Outcome(Unavailable, WaitFailed, None, false)
    else if result == Some(Code(0)) && cause in {ExplicitClose, TerminalWasClosed} then
      Outcome(Detached, cause, result, false)
    else Outcome(Unavailable, ExitedUnexpectedly, result, false)
  }

  function OutcomeOfForce(r: Receipt): Outcome {
    if IsExit(r) then Outcome(Unavailable, TermTimeout, r.what.event.result, true)
    else Outcome(Unavailable, Unreaped, None, true)
  }

  // ---------- the state that a prefix leads to ----------

  /** The lifecycle after a prefix that has not ended it, told from its receipts. */
  ghost predicate Stands(env: Env, trace: seq<Receipt>, life: Life) {
    var n := |trace|;
    match life
    case Watching(reason, deadline, sent) =>
      && reason == LatestCause(env, trace) && (deadline.Some? <==> reason != AttachClientExited)
      && (env.term.Refused? ==> reason == AttachClientExited)
      && (Quiet(trace, n) ||
          (n > 0 && Quiet(trace, n - 1) && !ShutBefore(env, trace, n - 1) && trace[n-1].what.HungUp?))
    case Forcing(until, sent) =>
      !env.kill.Refused? && exists k: nat :: ExpiresAt(env, trace, k) && forall j :: k < j < n ==> !Decides(trace[j])
    case Ended(outcome, sent, at) =>
      exists m: nat :: m < n && at == trace[m].at && EndsAt(env, trace, m, outcome)
  }

  lemma EndsLater(env: Env, trace: seq<Receipt>, more: seq<Receipt>, m: nat, o: Outcome)
    requires m < |trace| <= |more| && more[..|trace|] == trace
    ensures EndsAt(env, trace, m, o) <==> EndsAt(env, more, m, o)
  {
    assert trace[..m] == more[..m] && trace[..m+1] == more[..m+1];
    assert forall j :: 0 <= j < |trace| ==> trace[j] == more[j];
    assert m > 0 ==> trace[..m-1] == more[..m-1];
    forall k: nat ensures ForcedAt(env, trace, k, m) <==> ForcedAt(env, more, k, m) {
      if k < m { assert trace[..k] == more[..k]; }
    }
  }

  lemma {:induction false} RunStands(env: Env, trace: seq<Receipt>)
    requires FromReceiver(env, trace)
    ensures Stands(env, trace, Run(env, trace))
    decreases |trace|
  {
    if trace != [] {
      var before, n := trace[..|trace|-1], |trace| - 1;
      RunStands(env, before);
      match Run(env, before)
      case Watching(_, _, _) => WatchStands(env, trace);
      case Forcing(_, _) => ForceStands(env, trace);
      case Ended(outcome, _, at) =>
        var m: nat :| m < n && at == before[m].at && EndsAt(env, before, m, outcome);
        EndsLater(env, before, trace, m, outcome);
    }
  }

  lemma WatchStands(env: Env, trace: seq<Receipt>)
    requires trace != [] && FromReceiver(env, trace)
    requires Run(env, trace[..|trace|-1]).Watching? && Stands(env, trace[..|trace|-1], Run(env, trace[..|trace|-1]))
    ensures Stands(env, trace, Run(env, trace))
  {
    var before, n := trace[..|trace|-1], |trace| - 1;
    assert trace[..n] == before && trace[..n+1] == trace;
    assert forall j :: 0 <= j < n ==> before[j] == trace[j];
    LatestCauseSnoc(env, trace);
    assert n > 0 ==> before[..n-1] == trace[..n-1];
    var life := Run(env, trace);
    if life.Forcing? {
      assert ExpiresAt(env, trace, n);
    } else if life.Ended? {
      assert EndsAt(env, trace, n, life.outcome);
    }
  }

  lemma ForceStands(env: Env, trace: seq<Receipt>)
    requires trace != [] && FromReceiver(env, trace)
    requires Run(env, trace[..|trace|-1]).Forcing? && Stands(env, trace[..|trace|-1], Run(env, trace[..|trace|-1]))
    ensures Stands(env, trace, Run(env, trace))
  {
    var before, n := trace[..|trace|-1], |trace| - 1;
    var k: nat :| ExpiresAt(env, before, k) && forall j :: k < j < n ==> !Decides(before[j]);
    assert before[..k] == trace[..k] && forall j :: 0 <= j < n ==> before[j] == trace[j];
    assert ExpiresAt(env, trace, k);
    if Decides(trace[n]) {
      assert ForcedAt(env, trace, k, n);
      assert EndsAt(env, trace, n, OutcomeOfForce(trace[n]));
    }
  }

  // ---------- and back ----------

  lemma {:induction false} ForcingLasts(env: Env, trace: seq<Receipt>, k: nat, n: nat)
    requires ExpiresAt(env, trace, k) && !env.kill.Refused? && k < n <= |trace|
    requires forall j :: k < j < n ==> !Decides(trace[j])
    ensures Run(env, trace[..n]).Forcing?
    decreases n
  {
    assert trace[..n][..n-1] == trace[..n-1];
    if n == k + 1 {
      OrdinaryPrefix(env, trace[..k]);
    } else {
      ForcingLasts(env, trace, k, n - 1);
    }
  }

  lemma AtEnd(env: Env, trace: seq<Receipt>, n: nat, o: Outcome)
    requires n < |trace| && EndsAt(env, trace, n, o)
    ensures EndedBy(env, trace, n, o)
  {
    var life := Run(env, trace[..n]);
    assert trace[..n+1][..n] == trace[..n];
    LatestCauseSnoc(env, trace[..n+1]);
    if k: nat :| ForcedAt(env, trace, k, n) && o == OutcomeOfForce(trace[n]) {
      ForcingLasts(env, trace, k, n);
    } else if Quiet(trace, n) {
      OrdinaryPrefix(env, trace[..n]);
    } else {
      assert trace[..n][..n-1] == trace[..n-1];
      OrdinaryPrefix(env, trace[..n-1]);
    }
  }

  /** The n-th receipt ends the lifecycle, in this outcome. */
  predicate EndedBy(env: Env, trace: seq<Receipt>, n: nat, o: Outcome) {
    && n < |trace| && !Run(env, trace[..n]).Ended?
    && var life := Run(env, trace[..n+1]); life.Ended? && life.outcome == o && life.at == trace[n].at
  }

  /** Every outcome, exactly: it is the n-th receipt that ends the lifecycle, and in this outcome, if and only if
      the receipts say so. */
  lemma OutcomesExactly(env: Env, trace: seq<Receipt>, n: nat, o: Outcome)
    requires FromReceiver(env, trace) && n < |trace|
    ensures EndedBy(env, trace, n, o) <==> EndsAt(env, trace, n, o)
    ensures EndedBy(env, trace, n, o) ==> Run(env, trace).Ended? && Run(env, trace).outcome == o
  {
    if EndsAt(env, trace, n, o) {
      AtEnd(env, trace, n, o);
    }
    if EndedBy(env, trace, n, o) {
      EndedIsFinal(env, trace, n + 1);
      var short := trace[..n+1];
      PrefixFromReceiver(env, trace, n + 1);
      RunStands(env, short);
      var m: nat :| m <= n && EndsAt(env, short, m, o);
      EndsLater(env, short, trace, m, o);
      AtEnd(env, trace, m, o);
      if m < n {
        assert trace[..n][..m+1] == trace[..m+1];
        EndedIsFinal(env, trace[..n], m + 1);
      }
    }
  }

  /** The lifecycle has ended exactly when some receipt ends it. */
  lemma EndedExactly(env: Env, trace: seq<Receipt>, o: Outcome)
    requires FromReceiver(env, trace)
    ensures Run(env, trace).Ended? && Run(env, trace).outcome == o <==>
            exists n: nat :: n < |trace| && EndsAt(env, trace, n, o)
  {
    if Run(env, trace).Ended? {
      RunStands(env, trace);
    }
    if n: nat :| n < |trace| && EndsAt(env, trace, n, o) {
      OutcomesExactly(env, trace, n, o);
    }
  }

  /** A killed child's exit is reported, with its status, exactly when it is the first receipt after the deadline
      that decides; it counts as unreaped exactly when that receipt is a timeout or a hang-up. */
  lemma ForcedExactly(env: Env, trace: seq<Receipt>)
    requires FromReceiver(env, trace)
    ensures var life := Run(env, trace);
      && (forall status :: life.Ended? && life.outcome == Outcome(Unavailable, TermTimeout, Some(status), true) <==>
            exists k: nat, n: nat :: ForcedAt(env, trace, k, n) && trace[n].what == Received(ChildExited(Some(status))))
      && (life.Ended? && life.outcome.reason == Unreaped <==>
            exists k: nat, n: nat :: ForcedAt(env, trace, k, n) && !IsExit(trace[n]))
  {
    var life := Run(env, trace);
    if life.Ended? {
      EndedExactly(env, trace, life.outcome);
    }
    forall k: nat, n: nat | ForcedAt(env, trace, k, n) ensures life.Ended? && life.outcome == OutcomeOfForce(trace[n]) {
      assert EndsAt(env, trace, n, OutcomeOfForce(trace[n]));
      OutcomesExactly(env, trace, n, OutcomeOfForce(trace[n]));
    }
  }
}
