/** Desktop, launcher and attach child together: every interleaving of their atomic steps
    (client/src-tauri/src/main.rs). Time advances between steps; a step carries its instant. */
module ObservationProtocol {
  import opened Wrappers
  import opened Observation
  import opened LifecycleProperties
  import L = Lifecycle

  // ---------- the system ----------

  /** One opened observation and the fixed answers of its environment. */
  datatype Setup = Setup(session: Session, monitorSpawned: bool, writable: bool,
                         term: L.Delivery, kill: L.Delivery, detachTimeout: nat, forceTimeout: nat)

  /** The launcher's view: the envelope carries the session and the token made for it. */
  function EnvOf(c: Setup): L.Env {
    L.Env(c.session.localSessionId, ControlToken(c.session), c.term, c.kill, c.detachTimeout, c.forceTimeout)
  }

  datatype Sys = Sys(
    now: nat,
    entry: Entry,
    written: seq<L.Control>,           // frames the desktop put on the control stream
    writtenAt: nat,                    // when the first of them was written
    closers: map<nat, Progress>,       // close calls so far
    readerDone: bool,                  // the launcher reads one frame only
    queue: seq<L.Event>,               // the launcher's event queue
    history: seq<L.Receipt>,           // what its receives returned
    reaped: Option<Option<L.ExitStatus>>,
    verdict: Option<L.Control>,        // the frame it sends when the lifecycle returns
    monitorDone: bool)

  function LifeOf(c: Setup, s: Sys): L.Life {
    L.Run(EnvOf(c), s.history)
  }

  function Init(c: Setup): Sys {
    Sys(0, Entry(L.Attached, NoReason),
        if !c.monitorSpawned && c.writable then [DetachFrame(c.session)] else [], 0,
        map[], false, [], [], None, None, false)
  }

  datatype Action =
    | Close(closer: nat, requested: Session, writable: bool)
    | Wake(closer: nat)
    | ReadFrame
    | ReadStray(frame: L.Control)         // any frame that is not this launcher's own detach request
    | ReaderLosesStream
    | CloseTerminal
    | Reap(result: Option<L.ExitStatus>)
    | Handle
    | Expire
    | WriteVerdict
    | MonitorReadsVerdict
    | MonitorReadsStray(frame: L.Control) // any frame that is not this launcher's own `closed`
    | MonitorLosesStream

  predicate Enabled(c: Setup, s: Sys, a: Action, at: nat) {
    s.now <= at &&
    match a
    case Close(k, _, _) => c.monitorSpawned && k !in s.closers
    case Wake(k) => k in s.closers && s.closers[k].Waiting?
    case ReadFrame => !s.readerDone && s.written != []
    case ReadStray(frame) => !s.readerDone && !L.Authentic(EnvOf(c), frame)
    case ReaderLosesStream => !s.readerDone
    case CloseTerminal => true
    case Reap(_) => s.reaped.None?
    case Handle => s.queue != [] && !LifeOf(c, s).Ended?
    case Expire => Limit(LifeOf(c, s)).Some? && Limit(LifeOf(c, s)).value <= at
    case WriteVerdict => LifeOf(c, s).Ended? && s.verdict.None?
    case MonitorReadsVerdict => c.monitorSpawned && !s.monitorDone && s.verdict.Some?
    case MonitorReadsStray(frame) =>
      c.monitorSpawned && !s.monitorDone && !(frame.Closed? && frame.localSessionId == c.session.localSessionId)
    case MonitorLosesStream => c.monitorSpawned && !s.monitorDone
  }

  function Apply(c: Setup, s: Sys, a: Action, at: nat): Sys
    requires Enabled(c, s, a, at)
  {
    var s := s.(now := at);
    match a
    case Close(k, requested, writable) =>
      var (entry, frames, progress) := BeginClose(c.session, s.entry, requested, writable, at);
      s.(entry := entry, written := s.written + frames, closers := s.closers[k := progress],
         writtenAt := if s.written == [] then at else s.writtenAt)
    case Wake(k) =>
      var (entry, progress) := ResumeClose(s.entry, s.closers[k].deadline, at);
      s.(entry := entry, closers := s.closers[k := progress])
    case ReadFrame => s.(readerDone := true, queue := s.queue + [L.DetachRequested(s.written[0])])
    case ReadStray(frame) => s.(readerDone := true, queue := s.queue + [L.DetachRequested(frame)])
    case ReaderLosesStream => s.(readerDone := true, queue := s.queue + [L.ControlDisconnected])
    case CloseTerminal => s.(queue := s.queue + [L.TerminalClosed])
    case Reap(result) => s.(reaped := Some(result), queue := s.queue + [L.ChildExited(result)])
    case Handle => s.(queue := s.queue[1..], history := s.history + [L.Receipt(L.Received(s.queue[0]), at)])
    case Expire => s.(history := s.history + [L.Receipt(L.TimedOut, at)])
    case WriteVerdict => s.(verdict := Some(L.Closed(c.session.localSessionId, LifeOf(c, s).outcome)))
    case MonitorReadsVerdict => s.(monitorDone := true, entry := Observation.Verdict(c.session, s.verdict))
    case MonitorReadsStray(frame) => s.(monitorDone := true, entry := Observation.Verdict(c.session, Some(frame)))
    case MonitorLosesStream => s.(monitorDone := true, entry := Observation.Verdict(c.session, None))
  }

  datatype Step = Step(action: Action, at: nat)

  /** The state reached from s by the steps, if each is enabled when it is taken. */
  function Exec(c: Setup, s: Sys, steps: seq<Step>): Option<Sys> {
    if steps == [] then Some(s)
    else
      var before, last := Exec(c, s, steps[..|steps|-1]), steps[|steps|-1];
      if before.Some? && Enabled(c, before.value, last.action, last.at)
      then Some(Apply(c, before.value, last.action, last.at))
      else None
  }

  // ---------- the invariant ----------

  predicate Seen(s: Sys, e: L.Event) {
    e in s.queue || exists i :: 0 <= i < |s.history| && s.history[i].what == L.Received(e)
  }

  ghost predicate LauncherInv(c: Setup, s: Sys) {
    && FromReceiver(EnvOf(c), s.history)
    && Clock(s.history) <= s.now
    && !HungUpLast(s.history)
    && (Seen(s, L.DetachRequested(DetachFrame(c.session))) ==> s.written != [])
    && (forall r :: Seen(s, L.ChildExited(r)) ==> s.reaped == Some(r))
    && (s.verdict.Some? ==>
          LifeOf(c, s).Ended? && s.verdict.value == L.Closed(c.session.localSessionId, LifeOf(c, s).outcome))
  }

  predicate DesktopInv(c: Setup, s: Sys) {
    && |s.written| <= 1
    && (s.written != [] ==> s.written[0] == DetachFrame(c.session))
    && (s.entry.state == L.Attached || s.entry.state == L.Detaching || Settled(s.entry))
    && (c.monitorSpawned && s.written != [] ==> s.entry.state != L.Attached)
    && (s.entry.state == L.Detaching ==> s.written != [] && !s.monitorDone)
    && (s.monitorDone ==> Settled(s.entry))
    && (s.entry.state == L.Detached ==>
          s.monitorDone && s.verdict.Some? && s.entry == Observation.Verdict(c.session, s.verdict))
    && (forall k :: k in s.closers && s.closers[k].Returned? ==> Settled(s.closers[k].entry))
    && (forall k :: k in s.closers && s.closers[k].Waiting? ==> s.written != [])
    && (!c.monitorSpawned ==> s.closers == map[] && s.entry == Entry(L.Attached, NoReason))
  }

  /** Where an event seen by the launcher comes from. */
  lemma SeenStep(c: Setup, s: Sys, a: Action, at: nat, e: L.Event)
    requires Enabled(c, s, a, at) && Seen(Apply(c, s, a, at), e)
    ensures Seen(s, e) || (a.ReadFrame? && e == L.DetachRequested(s.written[0]))
            || (a.ReadStray? && e == L.DetachRequested(a.frame))
            || (a.Reap? && e == L.ChildExited(a.result)) || e == L.ControlDisconnected || e == L.TerminalClosed
  {
    var t := Apply(c, s, a, at);
    if e !in t.queue {
      var i :| 0 <= i < |t.history| && t.history[i].what == L.Received(e);
      if i < |s.history| {
        assert s.history[i].what == L.Received(e);
      }
    }
  }

  /** The launcher's own record stays that of one receiver, and its verdict the outcome it ended with. */
  lemma HistoryStep(c: Setup, s: Sys, a: Action, at: nat)
    requires LauncherInv(c, s) && Enabled(c, s, a, at)
    ensures var t := Apply(c, s, a, at);
      && FromReceiver(EnvOf(c), t.history) && Clock(t.history) <= t.now && !HungUpLast(t.history)
      && (t.verdict.Some? ==>
            LifeOf(c, t).Ended? && t.verdict.value == L.Closed(c.session.localSessionId, LifeOf(c, t).outcome))
  {
    var t := Apply(c, s, a, at);
    if a.Handle? || a.Expire? {
      assert t.history[..|t.history|-1] == s.history;
    } else {
      assert t.history == s.history;
    }
  }

  lemma LauncherStep(c: Setup, s: Sys, a: Action, at: nat)
    requires LauncherInv(c, s) && DesktopInv(c, s) && Enabled(c, s, a, at)
    ensures LauncherInv(c, Apply(c, s, a, at))
  {
    var t := Apply(c, s, a, at);
    HistoryStep(c, s, a, at);
    var detach := L.DetachRequested(DetachFrame(c.session));
    if Seen(t, detach) {
      SeenStep(c, s, a, at, detach);
    }
    forall r | Seen(t, L.ChildExited(r)) ensures t.reaped == Some(r) {
      SeenStep(c, s, a, at, L.ChildExited(r));
    }
  }

  lemma DesktopStep(c: Setup, s: Sys, a: Action, at: nat)
    requires LauncherInv(c, s) && DesktopInv(c, s) && Enabled(c, s, a, at)
    ensures DesktopInv(c, Apply(c, s, a, at))
  {
    if a.Close? {
      CloseKeeps(c, s, a, at);
    } else if a.Wake? {
      WakeKeeps(c, s, a, at);
    } else if a.MonitorReadsVerdict? || a.MonitorReadsStray? || a.MonitorLosesStream? {
      MonitorKeeps(c, s, a, at);
    } else {
      LauncherSideKeeps(c, s, a, at);
    }
  }

  lemma CloseKeeps(c: Setup, s: Sys, a: Action, at: nat)
    requires DesktopInv(c, s) && Enabled(c, s, a, at) && a.Close?
    ensures DesktopInv(c, Apply(c, s, a, at))
  {
  }

  lemma WakeKeeps(c: Setup, s: Sys, a: Action, at: nat)
    requires DesktopInv(c, s) && Enabled(c, s, a, at) && a.Wake?
    ensures DesktopInv(c, Apply(c, s, a, at))
  {
  }

  lemma MonitorKeeps(c: Setup, s: Sys, a: Action, at: nat)
    requires LauncherInv(c, s) && DesktopInv(c, s) && Enabled(c, s, a, at)
    requires a.MonitorReadsVerdict? || a.MonitorReadsStray? || a.MonitorLosesStream?
    ensures DesktopInv(c, Apply(c, s, a, at))
  {
  }

  lemma LauncherSideKeeps(c: Setup, s: Sys, a: Action, at: nat)
    requires DesktopInv(c, s) && Enabled(c, s, a, at) && !a.Close? && !a.Wake?
    requires !a.MonitorReadsVerdict? && !a.MonitorReadsStray? && !a.MonitorLosesStream?
    ensures DesktopInv(c, Apply(c, s, a, at))
  {
  }

  lemma {:induction false} Invariant(c: Setup, steps: seq<Step>, s: Sys)
    requires Exec(c, Init(c), steps) == Some(s)
    ensures LauncherInv(c, s) && DesktopInv(c, s)
  {
    if steps != [] {
      var before, last := Exec(c, Init(c), steps[..|steps|-1]).value, steps[|steps|-1];
      Invariant(c, steps[..|steps|-1], before);
      LauncherStep(c, before, last.action, last.at);
      DesktopStep(c, before, last.action, last.at);
    }
  }

  // ---------- what the desktop may conclude ----------

  /** Over every interleaving: `detached` in the registry means that this observation's own launcher
      reported it, that its child exited successfully after an authenticated detach or a closed terminal,
      that a detach was indeed written if that was the cause, and that SIGTERM alone was sent. */
  lemma DetachedIsTruthful(c: Setup, steps: seq<Step>, s: Sys)
    requires Exec(c, Init(c), steps) == Some(s)
    requires s.entry.state == L.Detached
    ensures s.verdict.Some? && s.verdict.value.Closed? && s.verdict.value.localSessionId == c.session.localSessionId
    ensures s.reaped == Some(Some(L.Code(0)))
    ensures exists k: nat :: DetachesAt(EnvOf(c), s.history, k) &&
              s.entry == Entry(L.Detached, Reported(LatestCause(EnvOf(c), s.history[..k])))
    ensures s.entry.reason == Reported(L.ExplicitClose) ==> s.written == [DetachFrame(c.session)]
    ensures LifeOf(c, s).Ended? && |LifeOf(c, s).sent| == 1 && LifeOf(c, s).sent[0].signal == L.Term
  {
    Invariant(c, steps, s);
    DetachedExactly(EnvOf(c), s.history);
    SignalsSoFar(EnvOf(c), s.history);
    var k: nat :| DetachesAt(EnvOf(c), s.history, k);
    assert Seen(s, L.ChildExited(Some(L.Code(0))));
    if LatestCause(EnvOf(c), s.history[..k]) == L.ExplicitClose {
      var i := ExplicitCauseSeen(EnvOf(c), s.history[..k]);
      assert s.history[i].what == L.Received(L.DetachRequested(DetachFrame(c.session)));
      assert Seen(s, L.DetachRequested(DetachFrame(c.session)));
    }
  }

  lemma {:induction false} ExplicitCauseSeen(env: L.Env, trace: seq<L.Receipt>) returns (i: nat)
    requires LatestCause(env, trace) == L.ExplicitClose
    ensures i < |trace| && trace[i].what ==
            L.Received(L.DetachRequested(L.Detach(env.localSessionId, env.controlToken)))
  {
    if L.Cause(env, trace[|trace|-1].what).Some? {
      i := |trace| - 1;
    } else {
      i := ExplicitCauseSeen(env, trace[..|trace|-1]);
    }
  }

  /** However many closes race, at most one frame is ever written; it is the one this observation's
      launcher accepts; and every close that returns reports a settled observation. */
  lemma OneAuthenticDetach(c: Setup, steps: seq<Step>, s: Sys)
    requires Exec(c, Init(c), steps) == Some(s)
    ensures |s.written| <= 1
    ensures s.written != [] ==> L.Authentic(EnvOf(c), s.written[0])
    ensures forall k :: k in s.closers && s.closers[k].Returned? ==> Settled(s.closers[k].entry)
  {
    Invariant(c, steps, s);
  }

  lemma StatusStep(c: Setup, s: Sys, a: Action, at: nat)
    requires DesktopInv(c, s) && Enabled(c, s, a, at)
    ensures var t := Apply(c, s, a, at);
            && (s.entry.state != L.Attached ==> t.entry.state != L.Attached)
            && (s.monitorDone ==> t.monitorDone && t.entry == s.entry)
            && (Settled(s.entry) ==> Settled(t.entry))
            && s.written <= t.written
  {
  }

  /** From any reachable state on: the registry never returns to `attached`, and once the monitor has
      applied its verdict nothing changes the status again. */
  lemma {:induction false} StatusIsMonotone(c: Setup, steps: seq<Step>, s: Sys, more: seq<Step>, t: Sys)
    requires Exec(c, Init(c), steps) == Some(s) && Exec(c, s, more) == Some(t)
    ensures s.entry.state != L.Attached ==> t.entry.state != L.Attached
    ensures s.monitorDone ==> t.monitorDone && t.entry == s.entry
    ensures Settled(s.entry) ==> Settled(t.entry)
    ensures s.written <= t.written
    ensures Exec(c, Init(c), steps + more) == Some(t)
    decreases |more|
  {
    if more == [] {
      assert steps + more == steps;
    } else {
      var u, last := Exec(c, s, more[..|more|-1]).value, more[|more|-1];
      assert (steps + more)[..|steps + more|-1] == steps + more[..|more|-1];
      StatusIsMonotone(c, steps, s, more[..|more|-1], u);
      Invariant(c, steps + more[..|more|-1], u);
      StatusStep(c, u, last.action, last.at);
    }
  }

  // ---------- no close times out while the parties are timely ----------

  /** How long a written request stays unhandled, how late each of the launcher's receives returns after its
      limit (or after it was started, when the limit had already passed), and how long the verdict travels. */
  datatype Delays = Delays(request: nat, lags: seq<nat>, verdict: nat) {
    function Total(): nat { request + Sum(lags) + verdict }
  }

  lemma {:induction false} PartOfSum(lags: seq<nat>, n: nat)
    requires n <= |lags|
    ensures Sum(lags[..n]) <= Sum(lags)
    decreases |lags|
  {
    if n == |lags| {
      assert lags[..n] == lags;
    } else {
      assert lags[..|lags|-1][..n] == lags[..n];
      PartOfSum(lags[..|lags|-1], n);
    }
  }

  lemma OneMoreLag(lags: seq<nat>, n: nat)
    requires n < |lags|
    ensures lags[..n+1][..n] == lags[..n] && Sum(lags[..n+1]) == Sum(lags[..n]) + lags[n] <= Sum(lags)
  {
    assert lags[..n+1][..n] == lags[..n];
    PartOfSum(lags, n + 1);
  }

  /** Nothing is overdue: the request, the receive that the launcher is in, the verdict. */
  predicate Timely(c: Setup, d: Delays, s: Sys) {
    var life, limit, n := LifeOf(c, s), Limit(LifeOf(c, s)), |s.history|;
    && (s.written != [] && FirstCause(EnvOf(c), s.history).None? && !life.Ended? ==> s.now <= s.writtenAt + d.request)
    && (!life.Ended? ==> n < |d.lags| && (limit.Some? ==> s.now <= Max(Clock(s.history), limit.value) + d.lags[n]))
    && (life.Ended? && !s.monitorDone && c.monitorSpawned ==> s.now <= life.at + d.verdict)
  }

  /** Every step is taken before any of these obligations is overdue. */
  predicate TimelyExec(c: Setup, d: Delays, s: Sys, steps: seq<Step>) {
    steps == [] ||
    var n := |steps| - 1;
    && TimelyExec(c, d, s, steps[..n])
    && (Exec(c, s, steps[..n]).Some? ==> Timely(c, d, Exec(c, s, steps[..n]).value.(now := steps[n].at)))
  }

  function Base(s: Sys): nat {
    if s.written != [] then s.writtenAt else s.now
  }

  /** The receives so far were prompt, and the first cause, or an end without one, came in time. */
  predicate LauncherTime(c: Setup, d: Delays, history: seq<L.Receipt>, base: nat) {
    var life, first := L.Run(EnvOf(c), history), FirstCause(EnvOf(c), history);
    && |history| <= |d.lags| && Prompt(EnvOf(c), history, d.lags[..|history|])
    && (first.Some? ==> first.value <= base + d.request)
    && (life.Ended? && first.None? ==> life.at <= base + d.request)
  }

  predicate CloserTime(s: Sys) {
    && Base(s) <= s.now
    && (forall k :: k in s.closers && s.closers[k].Waiting? ==>
          s.written != [] && s.writtenAt + L.ATTACH_CLOSE_RESPONSE_TIMEOUT <= s.closers[k].deadline)
    && s.entry.reason != DetachAckTimeout
    && (forall k :: k in s.closers && s.closers[k].Returned? ==> s.closers[k].entry.reason != DetachAckTimeout)
  }

  predicate TimeInv(c: Setup, d: Delays, s: Sys) {
    LauncherTime(c, d, s.history, Base(s)) && CloserTime(s)
  }

  lemma LauncherTimeStep(c: Setup, d: Delays, s: Sys, a: Action, at: nat)
    requires LauncherInv(c, s) && TimeInv(c, d, s)
    requires a.Handle? || a.Expire?
    requires Enabled(c, s, a, at) && Timely(c, d, s.(now := at))
    ensures LauncherTime(c, d, Apply(c, s, a, at).history, Base(s.(now := at)))
  {
    var history := Apply(c, s, a, at).history;
    assert history[..|history|-1] == s.history;
    PromptStep(EnvOf(c), s.history, d.lags, history);
  }

  lemma PromptStep(env: L.Env, before: seq<L.Receipt>, lags: seq<nat>, history: seq<L.Receipt>)
    requires history != [] && before == history[..|history|-1] && |history| <= |lags|
    requires Prompt(env, before, lags[..|before|])
    requires var limit := Limit(L.Run(env, before));
             limit.Some? ==> history[|before|].at <= Max(Clock(before), limit.value) + lags[|before|]
    ensures Prompt(env, history, lags[..|history|])
  {
    assert lags[..|history|][..|before|] == lags[..|before|];
  }

  /** The bound of the lifecycle, applied to the receive that is pending or to the end that was reached. */
  lemma PendingIsBounded(c: Setup, d: Delays, s: Sys, at: nat)
    requires FromReceiver(EnvOf(c), s.history)
    requires |s.history| <= |d.lags| && Prompt(EnvOf(c), s.history, d.lags[..|s.history|])
    requires FirstCause(EnvOf(c), s.history).Some? && Timely(c, d, s.(now := at))
    ensures var bound := FirstCause(EnvOf(c), s.history).value + c.detachTimeout + c.forceTimeout + Sum(d.lags);
            if LifeOf(c, s).Ended? then LifeOf(c, s).at <= bound else at <= bound
  {
    var n := |s.history|;
    LifecycleIsBounded(EnvOf(c), s.history, d.lags[..n]);
    SignalsSoFar(EnvOf(c), s.history);
    PartOfSum(d.lags, n);
    if !LifeOf(c, s).Ended? {
      OneMoreLag(d.lags, n);
    }
  }

  lemma NoWakeTooLate(c: Setup, d: Delays, s: Sys, k: nat, at: nat)
    requires LauncherInv(c, s) && DesktopInv(c, s) && TimeInv(c, d, s)
    requires Enabled(c, s, Wake(k), at) && Timely(c, d, s.(now := at))
    requires c.detachTimeout == L.ATTACH_DETACH_TIMEOUT && c.forceTimeout == L.ATTACH_FORCE_TIMEOUT && d.Total() < 1000
    ensures s.entry.state == L.Detaching ==> at < s.closers[k].deadline
  {
    if FirstCause(EnvOf(c), s.history).Some? {
      PendingIsBounded(c, d, s, at);
    }
  }

  lemma TimeStep(c: Setup, d: Delays, s: Sys, a: Action, at: nat)
    requires LauncherInv(c, s) && DesktopInv(c, s) && TimeInv(c, d, s)
    requires Enabled(c, s, a, at) && Timely(c, d, s.(now := at))
    requires c.detachTimeout == L.ATTACH_DETACH_TIMEOUT && c.forceTimeout == L.ATTACH_FORCE_TIMEOUT && d.Total() < 1000
    ensures TimeInv(c, d, Apply(c, s, a, at))
  {
    CloserTimeStep(c, d, s, a, at);
    var t := Apply(c, s, a, at);
    if a.Handle? || a.Expire? {
      LauncherTimeStep(c, d, s, a, at);
    } else {
      assert t.history == s.history;
      assert Base(s) <= Base(t);
    }
  }

  lemma CloserTimeStep(c: Setup, d: Delays, s: Sys, a: Action, at: nat)
    requires LauncherInv(c, s) && DesktopInv(c, s) && TimeInv(c, d, s)
    requires Enabled(c, s, a, at) && Timely(c, d, s.(now := at))
    requires c.detachTimeout == L.ATTACH_DETACH_TIMEOUT && c.forceTimeout == L.ATTACH_FORCE_TIMEOUT && d.Total() < 1000
    ensures CloserTime(Apply(c, s, a, at))
  {
    if a.Wake? {
      NoWakeTooLate(c, d, s, a.closer, at);
      WakeInTime(c, s, a, at);
    } else if a.Close? {
      CloseInTime(c, s, a, at);
    } else {
      OthersInTime(c, s, a, at);
    }
  }

  lemma CloseInTime(c: Setup, s: Sys, a: Action, at: nat)
    requires DesktopInv(c, s) && CloserTime(s) && Enabled(c, s, a, at) && a.Close?
    ensures CloserTime(Apply(c, s, a, at))
  {
  }

  lemma WakeInTime(c: Setup, s: Sys, a: Action, at: nat)
    requires CloserTime(s) && Enabled(c, s, a, at) && a.Wake?
    requires s.entry.state == L.Detaching ==> at < s.closers[a.closer].deadline
    ensures CloserTime(Apply(c, s, a, at))
  {
  }

  lemma OthersInTime(c: Setup, s: Sys, a: Action, at: nat)
    requires CloserTime(s) && Enabled(c, s, a, at) && !a.Wake? && !a.Close?
    ensures CloserTime(Apply(c, s, a, at))
  {
  }

  /** With the shipped constants, if transit and scheduling add less than a second in all,
      no close ever ends in `detach_ack_timeout`. */
  lemma {:induction false} NoAckTimeout(c: Setup, d: Delays, steps: seq<Step>, s: Sys)
    requires Exec(c, Init(c), steps) == Some(s) && TimelyExec(c, d, Init(c), steps)
    requires c.detachTimeout == L.ATTACH_DETACH_TIMEOUT && c.forceTimeout == L.ATTACH_FORCE_TIMEOUT && d.Total() < 1000
    ensures s.entry.reason != DetachAckTimeout
    ensures forall k :: k in s.closers && s.closers[k].Returned? ==> s.closers[k].entry.reason != DetachAckTimeout
    ensures TimeInv(c, d, s)
  {
    if steps != [] {
      var before, last := Exec(c, Init(c), steps[..|steps|-1]).value, steps[|steps|-1];
      NoAckTimeout(c, d, steps[..|steps|-1], before);
      Invariant(c, steps[..|steps|-1], before);
      TimeStep(c, d, before, last.action, last.at);
    }
  }
}
