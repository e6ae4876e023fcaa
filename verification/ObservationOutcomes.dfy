/** What the desktop's status, its frames and its closes come to, read off the steps that were taken. */
module ObservationOutcomes {
  import opened Wrappers
  import opened Observation
  import opened ObservationProtocol
  import L = Lifecycle

  // ---------- the verdict ----------

  /** A `closed` frame that names the session and one of the two final states. */
  predicate IsFinalReport(session: Session, frame: L.Control) {
    && frame.Closed? && frame.localSessionId == session.localSessionId
    && (frame.outcome.state == L.Detached || frame.outcome.state == L.Unavailable)
  }

  predicate IsFailureReport(session: Session, frame: L.Control) {
    frame.Failed? && frame.localSessionId == session.localSessionId
  }

  /** A final report is taken over as it stands, a failure's message is kept, any other frame counts as mismatched
      and no frame as a lost launcher; and each reason has no other source. */
  lemma VerdictExactly(session: Session, frame: Option<L.Control>)
    ensures var e := Verdict(session, frame);
      && (e.reason.Reported? <==> frame.Some? && IsFinalReport(session, frame.value))
      && (e.reason.Reported? ==>
            e.state == frame.value.outcome.state && e.reason.reason == frame.value.outcome.reason)
      && (e.reason.LauncherFailed? <==> frame.Some? && IsFailureReport(session, frame.value))
      && (e.reason.LauncherFailed? ==> e == Entry(L.Unavailable, LauncherFailed(frame.value.message)))
      && (e == Entry(L.Unavailable, ControlLost) <==> frame.None?)
      && (e.reason.MismatchedLauncherStatus? <==>
            frame.Some? && !IsFinalReport(session, frame.value) && !IsFailureReport(session, frame.value))
      && (e.reason.MismatchedLauncherStatus? ==> e.state == L.Unavailable)
  {
  }

  // ---------- what has been asked, read and waited for ----------

  /** The monitor has the launcher's first frame, or knows that there is none. */
  predicate IsReading(a: Action) {
    a.MonitorReadsVerdict? || a.MonitorReadsStray? || a.MonitorLosesStream?
  }

  predicate HasRead(steps: seq<Step>) {
    exists i :: 0 <= i < |steps| && IsReading(steps[i].action)
  }

  /** Whether the first close that names this attachment could write its frame, if there is one and the monitor had
      not read before it. */
  function Asked(c: Setup, steps: seq<Step>): Option<bool> {
    if steps == [] then None
    else
      var before, last := steps[..|steps|-1], steps[|steps|-1];
      if Asked(c, before).Some? then Asked(c, before)
      else if last.action.Close? && last.action.requested == c.session && !HasRead(before)
      then Some(last.action.writable)
      else None
  }

  /** A close as it was called: the attachment it names, and when. */
  datatype Call = Call(requested: Session, at: nat)

  function Called(steps: seq<Step>, closer: nat): Option<Call> {
    if steps == [] then None
    else
      var before, last := steps[..|steps|-1], steps[|steps|-1];
      if Called(before, closer).Some? then Called(before, closer)
      else if last.action.Close? && last.action.closer == closer then Some(Call(last.action.requested, last.at))
      else None
  }

  /** Some close was woken seven seconds after its call, or later. */
  predicate WaitedOut(steps: seq<Step>) {
    exists i :: 0 <= i < |steps| && LateWake(steps, i)
  }

  predicate LateWake(steps: seq<Step>, i: nat)
    requires i < |steps|
  {
    && steps[i].action.Wake?
    && var call := Called(steps[..i], steps[i].action.closer);
       call.Some? && call.value.at + 7000 <= steps[i].at
  }

  lemma OneMoreRead(steps: seq<Step>)
    requires steps != []
    ensures HasRead(steps) <==> HasRead(steps[..|steps|-1]) || IsReading(steps[|steps|-1].action)
  {
    var before := steps[..|steps|-1];
    if HasRead(before) {
      var i :| 0 <= i < |before| && IsReading(before[i].action);
      assert IsReading(steps[i].action);
    }
    if HasRead(steps) && !IsReading(steps[|steps|-1].action) {
      var i :| 0 <= i < |steps| && IsReading(steps[i].action);
      assert IsReading(before[i].action);
    }
  }

  lemma OneMoreWait(steps: seq<Step>)
    requires steps != []
    ensures WaitedOut(steps) <==> WaitedOut(steps[..|steps|-1]) || LateWake(steps, |steps| - 1)
  {
    var before := steps[..|steps|-1];
    if WaitedOut(before) {
      var i :| 0 <= i < |before| && LateWake(before, i);
      assert before[..i] == steps[..i];
      assert LateWake(steps, i);
    }
    if WaitedOut(steps) && !LateWake(steps, |steps| - 1) {
      var i :| 0 <= i < |steps| && LateWake(steps, i);
      assert before[..i] == steps[..i];
      assert LateWake(before, i);
    }
  }

  // ---------- the status ----------

  /** The status until the monitor has read: attached; detaching from the first close on; unavailable if its frame
      could not be written, or if some close has waited for seven seconds. */
  function StatusBefore(asked: Option<bool>, waitedOut: bool): Entry {
    if asked.None? then Entry(L.Attached, NoReason)
    else if !asked.value then Entry(L.Unavailable, ControlLost)
    else if waitedOut then Entry(L.Unavailable, DetachAckTimeout)
    else Entry(L.Detaching, ExplicitCloseRequested)
  }

  /** The frames written: one detach request, for the first close or for want of a monitor. */
  function Requests(c: Setup, asked: Option<bool>): seq<L.Control> {
    if asked == Some(true) || (asked.None? && !c.monitorSpawned && c.writable)
    then [L.Detach(c.session.localSessionId, ControlToken(c.session))]
    else []
  }

  /** The calls that are waiting were made for this attachment and wait for seven seconds from then. */
  ghost predicate CallsTracked(c: Setup, steps: seq<Step>, s: Sys) {
    && (forall k: nat :: k in s.closers <==> Called(steps, k).Some?)
    && (forall k: nat :: k in s.closers && s.closers[k].Waiting? ==>
          && Called(steps, k).value.requested == c.session
          && s.closers[k].deadline == Called(steps, k).value.at + 7000)
  }

  lemma CallsStep(c: Setup, steps: seq<Step>, s: Sys)
    requires steps != [] && Enabled(c, s, steps[|steps|-1].action, steps[|steps|-1].at)
    requires CallsTracked(c, steps[..|steps|-1], s)
    ensures CallsTracked(c, steps, Apply(c, s, steps[|steps|-1].action, steps[|steps|-1].at))
  {
    var before, last := steps[..|steps|-1], steps[|steps|-1];
    forall k: nat
      ensures Called(steps, k) ==
              if Called(before, k).None? && last.action.Close? && last.action.closer == k
              then Some(Call(last.action.requested, last.at)) else Called(before, k)
    {
    }
    if last.action.Close? || last.action.Wake? {
      OwnCallStep(c, s, last.action, last.at);
    }
  }

  lemma OwnCallStep(c: Setup, s: Sys, a: Action, at: nat)
    requires Enabled(c, s, a, at) && (a.Close? || a.Wake?)
    ensures var t := Apply(c, s, a, at);
      && t.closers.Keys == s.closers.Keys + {a.closer}
      && (forall k :: k in s.closers && k != a.closer ==> t.closers[k] == s.closers[k])
      && (t.closers[a.closer].Waiting? ==>
            if a.Close? then a.requested == c.session && t.closers[a.closer].deadline == at + 7000
            else t.closers[a.closer] == s.closers[a.closer])
  {
  }

  lemma {:induction false} CallsFollow(c: Setup, steps: seq<Step>, s: Sys)
    requires Exec(c, Init(c), steps) == Some(s)
    ensures CallsTracked(c, steps, s)
  {
    if steps != [] {
      var before := Exec(c, Init(c), steps[..|steps|-1]).value;
      CallsFollow(c, steps[..|steps|-1], before);
      CallsStep(c, steps, before);
    }
  }

  /** What the status depends on, besides the calls. */
  predicate Tracks(c: Setup, s: Sys, read: bool, asked: Option<bool>, waitedOut: bool) {
    && s.monitorDone == read
    && (!read ==> s.entry == StatusBefore(asked, waitedOut))
    && s.written == Requests(c, asked)
  }

  lemma CloseTracks(c: Setup, s: Sys, a: Action, at: nat, read: bool, asked: Option<bool>, waitedOut: bool)
    requires DesktopInv(c, s) && Enabled(c, s, a, at) && a.Close? && Tracks(c, s, read, asked, waitedOut)
    requires waitedOut ==> asked.Some?
    ensures var now := if asked.None? && a.requested == c.session && !read then Some(a.writable) else asked;
            Tracks(c, Apply(c, s, a, at), read, now, waitedOut)
  {
  }

  lemma WakeTracks(c: Setup, s: Sys, a: Action, at: nat, read: bool, asked: Option<bool>, waitedOut: bool)
    requires DesktopInv(c, s) && Enabled(c, s, a, at) && a.Wake? && Tracks(c, s, read, asked, waitedOut)
    ensures Tracks(c, Apply(c, s, a, at), read, asked, waitedOut || s.closers[a.closer].deadline <= at)
  {
  }

  lemma OthersTrack(c: Setup, s: Sys, a: Action, at: nat, read: bool, asked: Option<bool>, waitedOut: bool)
    requires Enabled(c, s, a, at) && !a.Close? && !a.Wake? && Tracks(c, s, read, asked, waitedOut)
    ensures Tracks(c, Apply(c, s, a, at), read || IsReading(a), asked, waitedOut)
  {
  }

  lemma AWakeWasAsked(c: Setup, s: Sys, closer: nat, read: bool, asked: Option<bool>, waitedOut: bool)
    requires DesktopInv(c, s) && closer in s.closers && s.closers[closer].Waiting?
    requires Tracks(c, s, read, asked, waitedOut)
    ensures asked == Some(true)
  {
    assert s.closers != map[];
  }

  lemma TrackedStep(c: Setup, steps: seq<Step>, s: Sys)
    requires steps != [] && DesktopInv(c, s) && Enabled(c, s, steps[|steps|-1].action, steps[|steps|-1].at)
    requires CallsTracked(c, steps[..|steps|-1], s)
    requires var before := steps[..|steps|-1]; Tracks(c, s, HasRead(before), Asked(c, before), WaitedOut(before))
    requires WaitedOut(steps[..|steps|-1]) ==> Asked(c, steps[..|steps|-1]) == Some(true)
    ensures WaitedOut(steps) ==> Asked(c, steps) == Some(true)
    ensures Tracks(c, Apply(c, s, steps[|steps|-1].action, steps[|steps|-1].at), HasRead(steps), Asked(c, steps),
                   WaitedOut(steps))
  {
    var before, a, at := steps[..|steps|-1], steps[|steps|-1].action, steps[|steps|-1].at;
    var read, asked, waitedOut := HasRead(before), Asked(c, before), WaitedOut(before);
    OneMoreRead(steps);
    OneMoreWait(steps);
    if a.Close? {
      CloseTracks(c, s, a, at, read, asked, waitedOut);
    } else if a.Wake? {
      AWakeWasAsked(c, s, a.closer, read, asked, waitedOut);
      WakeTracks(c, s, a, at, read, asked, waitedOut);
      assert LateWake(steps, |steps| - 1) <==> s.closers[a.closer].deadline <= at;
    } else {
      OthersTrack(c, s, a, at, read, asked, waitedOut);
    }
  }

  lemma {:induction false} StatusTracked(c: Setup, steps: seq<Step>, s: Sys)
    requires Exec(c, Init(c), steps) == Some(s)
    ensures Tracks(c, s, HasRead(steps), Asked(c, steps), WaitedOut(steps))
    ensures WaitedOut(steps) ==> Asked(c, steps) == Some(true)
  {
    if steps != [] {
      var before := Exec(c, Init(c), steps[..|steps|-1]).value;
      StatusTracked(c, steps[..|steps|-1], before);
      Invariant(c, steps[..|steps|-1], before);
      CallsFollow(c, steps[..|steps|-1], before);
      TrackedStep(c, steps, before);
    }
  }

  /** The monitor's one reading. */
  function Reading(steps: seq<Step>): Option<Action> {
    if steps == [] then None
    else if Reading(steps[..|steps|-1]).Some? then Reading(steps[..|steps|-1])
    else if IsReading(steps[|steps|-1].action) then Some(steps[|steps|-1].action)
    else None
  }

  /** What the reading leaves: the launcher's outcome, the failure that it reports, a mismatch, or a lost launcher. */
  function StatusRead(c: Setup, reading: Action, life: L.Life): Entry {
    match reading
    case MonitorReadsVerdict =>
      if life.Ended? then Entry(life.outcome.state, Reported(life.outcome.reason))
      else Entry(L.Unavailable, ControlLost)
    case MonitorReadsStray(frame) =>
      if IsFailureReport(c.session, frame) then Entry(L.Unavailable, LauncherFailed(frame.message))
      else Entry(L.Unavailable, MismatchedLauncherStatus)
    case _ => Entry(L.Unavailable, ControlLost)
  }

  lemma {:induction false} OutcomeIsFinal(env: L.Env, trace: seq<L.Receipt>)
    requires L.Run(env, trace).Ended?
    ensures L.Run(env, trace).outcome.state in {L.Detached, L.Unavailable}
  {
    var before := L.Run(env, trace[..|trace|-1]);
    if before.Ended? {
      OutcomeIsFinal(env, trace[..|trace|-1]);
    }
  }

  lemma ReadingTracked(c: Setup, s: Sys, a: Action, at: nat)
    requires LauncherInv(c, s) && Enabled(c, s, a, at) && IsReading(a)
    ensures Apply(c, s, a, at).entry == StatusRead(c, a, LifeOf(c, s)) && LifeOf(c, Apply(c, s, a, at)) == LifeOf(c, s)
    ensures a.MonitorReadsVerdict? ==> LifeOf(c, s).Ended?
  {
    if a.MonitorReadsVerdict? {
      OutcomeIsFinal(EnvOf(c), s.history);
    }
  }

  lemma EndedLifeStays(c: Setup, s: Sys, a: Action, at: nat)
    requires Enabled(c, s, a, at) && LifeOf(c, s).Ended?
    ensures LifeOf(c, Apply(c, s, a, at)) == LifeOf(c, s)
  {
    assert Apply(c, s, a, at).history == s.history;
  }

  lemma ReadStatusStays(c: Setup, s: Sys, a: Action, at: nat, reading: Action)
    requires DesktopInv(c, s) && Enabled(c, s, a, at) && s.monitorDone
    requires s.entry == StatusRead(c, reading, LifeOf(c, s)) && (reading.MonitorReadsVerdict? ==> LifeOf(c, s).Ended?)
    ensures var t := Apply(c, s, a, at);
      && t.entry == StatusRead(c, reading, LifeOf(c, t)) && (reading.MonitorReadsVerdict? ==> LifeOf(c, t).Ended?)
  {
    StatusStep(c, s, a, at);
    if LifeOf(c, s).Ended? {
      EndedLifeStays(c, s, a, at);
    }
  }

  lemma MonitorStep(c: Setup, s: Sys, a: Action, at: nat)
    requires Enabled(c, s, a, at)
    ensures Apply(c, s, a, at).monitorDone <==> s.monitorDone || IsReading(a)
    ensures IsReading(a) ==> !s.monitorDone
  {
  }

  lemma {:induction false} ReadStatus(c: Setup, steps: seq<Step>, s: Sys)
    requires Exec(c, Init(c), steps) == Some(s)
    ensures Reading(steps).Some? <==> s.monitorDone
    ensures Reading(steps).Some? ==> s.entry == StatusRead(c, Reading(steps).value, LifeOf(c, s))
    ensures Reading(steps) == Some(MonitorReadsVerdict) ==> LifeOf(c, s).Ended?
  {
    if steps != [] {
      var before, last := Exec(c, Init(c), steps[..|steps|-1]).value, steps[|steps|-1];
      ReadStatus(c, steps[..|steps|-1], before);
      Invariant(c, steps[..|steps|-1], before);
      MonitorStep(c, before, last.action, last.at);
      if before.monitorDone {
        ReadStatusStays(c, before, last.action, last.at, Reading(steps[..|steps|-1]).value);
      } else if IsReading(last.action) {
        ReadingTracked(c, before, last.action, last.at);
      }
    }
  }

  /** Over every interleaving, the status is what the first close, the waits and the monitor's reading make it, and the
      frames written are that one request. */
  lemma StatusFollows(c: Setup, steps: seq<Step>, s: Sys)
    requires Exec(c, Init(c), steps) == Some(s)
    ensures s.entry == if Reading(steps).Some? then StatusRead(c, Reading(steps).value, LifeOf(c, s))
                       else StatusBefore(Asked(c, steps), WaitedOut(steps))
    ensures s.written == Requests(c, Asked(c, steps))
  {
    ReadStatus(c, steps, s);
    StatusTracked(c, steps, s);
  }

  // ---------- the closes ----------

  /** How many steps had been taken when the close last did something. */
  function LastTurn(steps: seq<Step>, closer: nat): nat {
    if steps == [] then 0
    else
      var a := steps[|steps|-1].action;
      if (a.Close? || a.Wake?) && a.closer == closer then |steps| else LastTurn(steps[..|steps|-1], closer)
  }

  lemma {:induction false} LastTurnIsTaken(steps: seq<Step>, closer: nat)
    ensures LastTurn(steps, closer) <= |steps|
  {
    if steps != [] {
      LastTurnIsTaken(steps[..|steps|-1], closer);
    }
  }

  lemma {:induction false} PrefixRuns(c: Setup, s: Sys, steps: seq<Step>, n: nat)
    requires n <= |steps| && Exec(c, s, steps).Some?
    ensures Exec(c, s, steps[..n]).Some?
    decreases |steps|
  {
    if n < |steps| {
      assert steps[..|steps|-1][..n] == steps[..n];
      PrefixRuns(c, s, steps[..|steps|-1], n);
    } else {
      assert steps[..n] == steps;
    }
  }

  /** What a close has come to, by its call and the status at its last turn. */
  function ProgressOf(c: Setup, call: Call, entry: Entry): Progress {
    if call.requested != c.session then NotTheOwner
    else if entry.state == L.Detaching then Waiting(call.at + 7000)
    else Returned(entry)
  }

  lemma TurnTaken(c: Setup, s: Sys, a: Action, at: nat, call: Call)
    requires Enabled(c, s, a, at) && (a.Close? || a.Wake?)
    requires a.Close? ==> call == Call(a.requested, at)
    requires a.Wake? ==> call.requested == c.session && s.closers[a.closer].deadline == call.at + 7000
    ensures var t := Apply(c, s, a, at); t.closers[a.closer] == ProgressOf(c, call, t.entry)
  {
  }

  /** A close that names another attachment is refused; any other returns the status of its last turn, and waits,
      until seven seconds after its call, exactly while that is `detaching`. */
  lemma {:induction false} ClosesFollow(c: Setup, steps: seq<Step>, s: Sys, k: nat)
    requires Exec(c, Init(c), steps) == Some(s)
    ensures k in s.closers <==> Called(steps, k).Some?
    ensures k in s.closers ==>
              && LastTurn(steps, k) <= |steps| && Exec(c, Init(c), steps[..LastTurn(steps, k)]).Some?
              && s.closers[k] ==
                 ProgressOf(c, Called(steps, k).value, Exec(c, Init(c), steps[..LastTurn(steps, k)]).value.entry)
  {
    CallsFollow(c, steps, s);
    LastTurnIsTaken(steps, k);
    PrefixRuns(c, Init(c), steps, LastTurn(steps, k));
    if steps != [] {
      var before, last := Exec(c, Init(c), steps[..|steps|-1]).value, steps[|steps|-1];
      CallsFollow(c, steps[..|steps|-1], before);
      if (last.action.Close? || last.action.Wake?) && last.action.closer == k {
        assert steps[..LastTurn(steps, k)] == steps;
        TurnTaken(c, before, last.action, last.at, Called(steps, k).value);
      } else {
        ClosesFollow(c, steps[..|steps|-1], before, k);
        LastTurnIsTaken(steps[..|steps|-1], k);
        assert steps[..|steps|-1][..LastTurn(steps, k)] == steps[..LastTurn(steps, k)];
        OthersKeepCloses(c, before, last.action, last.at, k);
      }
    }
  }

  lemma OthersKeepCloses(c: Setup, s: Sys, a: Action, at: nat, k: nat)
    requires Enabled(c, s, a, at) && !((a.Close? || a.Wake?) && a.closer == k)
    ensures k in Apply(c, s, a, at).closers <==> k in s.closers
    ensures k in s.closers ==> Apply(c, s, a, at).closers[k] == s.closers[k]
  {
  }
}
