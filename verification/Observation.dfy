/** The desktop's side of a local observation: the registry entry, its closers and its monitor
    (client/src-tauri/src/main.rs). Each method is one section executed under the status mutex. */
module Observation {
  import opened Wrappers
  import L = Lifecycle

  /** The identity fields of an observation; they never change after it is opened. */
  datatype Session = Session(localSessionId: string, runId: string, occurrenceId: string, attemptId: string,
                             sessionId: string, terminalSessionId: string, paneId: string,
                             terminalId: Option<string>, mode: string)

  datatype EntryReason =
    | NoReason
    | ExplicitCloseRequested
    | ControlLost
    | DetachAckTimeout
    | MismatchedLauncherStatus
    | Reported(reason: L.Reason)
    | LauncherFailed(message: string)

  datatype Entry = Entry(state: L.AttachState, reason: EntryReason)

  /** A close call: it has returned, was refused, or sleeps on the condition variable. */
  datatype Progress = Returned(entry: Entry) | Stale | NotTheOwner | Waiting(deadline: nat)

  // ---------- control tokens ----------

  const TOKEN_DOMAIN := "qe-local-observation-control-v1"

  /** The digest's preimage stands for the digest, which is taken to be injective. */
  function ControlToken(s: Session): string {
    TOKEN_DOMAIN + ['\0'] + s.localSessionId + ['\0'] + s.terminalSessionId + ['\0'] + s.paneId
  }

  lemma SplitAtNul(a: string, b: string, c: string, d: string)
    requires '\0' !in a && '\0' !in b
    requires a + ['\0'] + c == b + ['\0'] + d
    ensures a == b && c == d
  {
    var whole := a + ['\0'] + c;
    assert whole[|a|] == '\0' && whole[|b|] == '\0';
    assert forall i :: 0 <= i < |a| ==> whole[i] == a[i];
    assert forall i :: 0 <= i < |b| ==> whole[i] == b[i];
    assert |a| == |b|;
    assert a == whole[..|a|] && b == whole[..|b|];
    assert c == whole[|a|+1..] && d == whole[|b|+1..];
  }

  /** A token identifies the local session, terminal session and pane it was made for,
      as long as the first two identifiers contain no NUL. */
  lemma TokenIdentifiesAttachment(s: Session, t: Session)
    requires '\0' !in s.localSessionId && '\0' !in s.terminalSessionId
    requires '\0' !in t.localSessionId && '\0' !in t.terminalSessionId
    ensures ControlToken(s) == ControlToken(t) <==>
            s.localSessionId == t.localSessionId && s.terminalSessionId == t.terminalSessionId && s.paneId == t.paneId
  {
    if ControlToken(s) == ControlToken(t) {
      var p := TOKEN_DOMAIN + ['\0'];
      var x := s.localSessionId + ['\0'] + (s.terminalSessionId + ['\0'] + s.paneId);
      var y := t.localSessionId + ['\0'] + (t.terminalSessionId + ['\0'] + t.paneId);
      assert ControlToken(s) == p + x && ControlToken(t) == p + y;
      assert x == (p + x)[|p|..] && y == (p + y)[|p|..];
      SplitAtNul(s.localSessionId, t.localSessionId,
                 s.terminalSessionId + ['\0'] + s.paneId, t.terminalSessionId + ['\0'] + t.paneId);
      SplitAtNul(s.terminalSessionId, t.terminalSessionId, s.paneId, t.paneId);
    }
  }

  function DetachFrame(s: Session): L.Control {
    L.Detach(s.localSessionId, ControlToken(s))
  }

  // ---------- the critical sections as functions ----------

  predicate Settled(e: Entry) {
    e.state == L.Detached || e.state == L.Unavailable
  }

  /** What the section up to the first wait does: the new entry, the frame written, and the progress. */
  function BeginClose(session: Session, e: Entry, requested: Session, writable: bool, now: nat)
    : (r: (Entry, seq<L.Control>, Progress))
  {
    if session != requested then (e, [], NotTheOwner)
    else if Settled(e) then (e, [], Returned(e))
    else if e.state == L.Attached then
      if writable
      then (Entry(L.Detaching, ExplicitCloseRequested), [DetachFrame(session)],
            Waiting(now + L.ATTACH_CLOSE_RESPONSE_TIMEOUT))
      else var lost := Entry(L.Unavailable, ControlLost); (lost, [], Returned(lost))
    else if e.state == L.Detaching then (e, [], Waiting(now + L.ATTACH_CLOSE_RESPONSE_TIMEOUT))
    else (e, [], Returned(e))
  }

  /** One wake-up of a waiting closer. */
  function ResumeClose(e: Entry, deadline: nat, now: nat): (r: (Entry, Progress)) {
    if e.state != L.Detaching then (e, Returned(e))
    else if deadline <= now then var late := Entry(L.Unavailable, DetachAckTimeout); (late, Returned(late))
    else (e, Waiting(deadline))
  }

  /** The monitor's reading of the first frame (None: the stream ended or held no valid frame). */
  function Verdict(session: Session, frame: Option<L.Control>): (e: Entry)
    ensures Settled(e)
    ensures e.state == L.Detached <==>
            && frame.Some? && frame.value.Closed? && frame.value.localSessionId == session.localSessionId
            && frame.value.outcome.state == L.Detached
  {
    match frame
    case Some(Closed(id, outcome)) =>
      if id == session.localSessionId && (outcome.state == L.Detached || outcome.state == L.Unavailable)
      then Entry(outcome.state, Reported(outcome.reason))
      else Entry(L.Unavailable, MismatchedLauncherStatus)
    case Some(Failed(id, message)) =>
      if id == session.localSessionId then Entry(L.Unavailable, LauncherFailed(message))
      else Entry(L.Unavailable, MismatchedLauncherStatus)
    case Some(_) => Entry(L.Unavailable, MismatchedLauncherStatus)
    case None => Entry(L.Unavailable, ControlLost)
  }

  // ---------- the entry and the registry ----------

  class ObservationEntry {
    const session: Session
    var state: L.AttachState
    var reason: EntryReason
    var written: seq<L.Control>  // frames on the control stream, oldest first

    function Current(): Entry
      reads this
    {
      Entry(state, reason)
    }

    /** A freshly opened attachment; without a monitor thread the launcher is told to detach at once. */
    constructor (session: Session, monitorSpawned: bool, writable: bool)
      ensures this.session == session
      ensures Current() == Entry(L.Attached, NoReason)
      ensures written == if !monitorSpawned && writable then [DetachFrame(session)] else []
    {
      this.session := session;
      state, reason := L.Attached, NoReason;
      written := if !monitorSpawned && writable then [DetachFrame(session)] else [];
    }

    method Close(requested: Session, writable: bool, now: nat) returns (progress: Progress)
      modifies this
      ensures var (entry, frames, p) := BeginClose(session, old(Current()), requested, writable, now);
              Current() == entry && written == old(written) + frames && progress == p
    {
      if session != requested { return NotTheOwner; }
      if state == L.Detached || state == L.Unavailable { return Returned(Current()); }
      if state == L.Attached {
        state, reason := L.Detaching, ExplicitCloseRequested;
        if writable {
          written := written + [DetachFrame(session)];
        } else {
          state, reason := L.Unavailable, ControlLost;
          return Returned(Current());
        }
      }
      var deadline := now + L.ATTACH_CLOSE_RESPONSE_TIMEOUT;
      if state == L.Detaching { return Waiting(deadline); }
      return Returned(Current());
    }

    method Wake(deadline: nat, now: nat) returns (progress: Progress)
      modifies this
      ensures var (entry, p) := ResumeClose(old(Current()), deadline, now);
              Current() == entry && progress == p
      ensures written == old(written)
    {
      if state == L.Detaching {
        if deadline <= now {
          state, reason := L.Unavailable, DetachAckTimeout;
          return Returned(Current());
        }
        return Waiting(deadline);
      }
      return Returned(Current());
    }

    method ApplyVerdict(frame: Option<L.Control>)
      modifies this
      ensures Current() == Verdict(session, frame)
      ensures written == old(written)
    {
      match frame {
        case Some(Closed(id, outcome)) =>
          if id == session.localSessionId && (outcome.state == L.Detached || outcome.state == L.Unavailable) {
            state, reason := outcome.state, Reported(outcome.reason);
          } else {
            state, reason := L.Unavailable, MismatchedLauncherStatus;
          }
        case Some(Failed(id, message)) =>
          state := L.Unavailable;
          reason := if id == session.localSessionId then LauncherFailed(message) else MismatchedLauncherStatus;
        case Some(_) => state, reason := L.Unavailable, MismatchedLauncherStatus;
        case None => state, reason := L.Unavailable, ControlLost;
      }
    }
  }

  class ObservationRegistry {
    var sessions: map<string, ObservationEntry>

    constructor ()
      ensures sessions == map[]
    {
      sessions := map[];
    }

    method Register(entry: ObservationEntry)
      modifies this
      ensures sessions == old(sessions)[entry.session.localSessionId := entry]
    {
      sessions := sessions[entry.session.localSessionId := entry];
    }

    /** Only the named entry can change, and only if the request names exactly the attachment it owns. */
    method Close(requested: Session, writable: bool, now: nat) returns (progress: Progress)
      modifies set id | id in sessions :: sessions[id]
      ensures requested.localSessionId !in sessions ==> progress == Stale
      ensures requested.localSessionId in sessions ==>
              var entry := sessions[requested.localSessionId];
              var (e, frames, p) := BeginClose(entry.session, old(entry.Current()), requested, writable, now);
              entry.Current() == e && entry.written == old(entry.written) + frames && progress == p
      ensures forall id :: id in sessions && (requested.localSessionId !in sessions
                                              || sessions[id] != sessions[requested.localSessionId])
                ==> unchanged(sessions[id])
    {
      if requested.localSessionId !in sessions { return Stale; }
      progress := sessions[requested.localSessionId].Close(requested, writable, now);
    }
  }
}
