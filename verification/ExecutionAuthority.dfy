/** The worker-side execution authority (spikes/claude-account-cell-feasibility/proof.ts).
    A binding id `binding-<n>` is represented by n, a release closure by its position in `handles`. */
module ExecutionAuthority {
  import opened Wrappers

  // ---------- records ----------

  datatype BindingInput = BindingInput(workerId: string, incarnation: string, generation: nat, runId: string,
                                       actionId: string, attemptId: string, lineageId: string,
                                       runIncarnation: string, workspaceRoot: string)

  datatype Binding = Binding(input: BindingInput, epoch: nat, retired: bool)

  datatype Session = Session(project: string, bindingId: nat, workerId: string, incarnation: string,
                             generation: nat, runId: string, lineageId: string, epoch: nat, retired: bool)

  datatype AccountState = Authenticated | RevocationRequested | Disconnected

  datatype Disk = Disk(workerId: string, accountId: string, incarnation: string, generation: nat, account: AccountState,
                       epochs: map<string, nat>, bindings: map<nat, Binding>, sessions: map<string, Session>,
                       processStarts: nat)

  datatype Handle = Handle(binding: nat, released: bool)

  /** A logout that waits for the provider process, or that was woken and has yet to continue. */
  datatype Logout = NoLogout | WaitingForIdle | Woken

  datatype State = State(disk: Disk, next: nat, active: Option<nat>, handles: seq<Handle>, logout: Logout)

  datatype Error =
    | StaleContext | Fenced | BindingRetired | AccountUnavailable | StaleEpoch
    | BadSessionId | BadProjectName | SessionExists | SessionInactive | ForeignSession
    | ProcessActive | CannotLogOut | DidNotQuiesce

  // ---------- formats ----------

  predicate Hex(c: char) {
    '0' <= c <= '9' || 'a' <= c <= 'f' || 'A' <= c <= 'F'
  }

  predicate IsUuid(s: string) {
    && |s| == 36
    && (forall i :: 0 <= i < 36 ==> if i in {8, 13, 18, 23} then s[i] == '-' else Hex(s[i]))
    && '1' <= s[14] <= '5' && s[19] in "89abAB"
  }

  predicate IsProjectName(s: string) {
    1 <= |s| <= 64 && forall i :: 0 <= i < |s| ==>
      '0' <= s[i] <= '9' || 'a' <= s[i] <= 'z' || 'A' <= s[i] <= 'Z' || s[i] == '_' || s[i] == '-'
  }

  // ---------- the operations as functions ----------

  predicate InContext(d: Disk, input: BindingInput) {
    input.workerId == d.workerId && input.incarnation == d.incarnation && input.generation == d.generation
  }

  function Epoch(d: Disk, runId: string, default: nat): nat {
    if runId in d.epochs then d.epochs[runId] else default
  }

  function Current(d: Disk, id: nat): Result<Binding, Error> {
    if id !in d.bindings || d.bindings[id].retired then Failure(BindingRetired)
    else if !InContext(d, d.bindings[id].input) then Failure(StaleContext)
    else if d.account != Authenticated then Failure(AccountUnavailable)
    else if d.bindings[id].epoch != Epoch(d, d.bindings[id].input.runId, 0) then Failure(StaleEpoch)
    else Success(d.bindings[id])
  }

  function BindIn(s: State, input: BindingInput): (State, Result<nat, Error>) {
    if !InContext(s.disk, input) then (s, Failure(StaleContext))
    else if s.disk.account != Authenticated then (s, Failure(Fenced))
    else
      var epoch := Epoch(s.disk, input.runId, 1);
      (s.(disk := s.disk.(epochs := s.disk.epochs[input.runId := epoch],
                          bindings := s.disk.bindings[s.next := Binding(input, epoch, false)]),
          next := s.next + 1),
       Success(s.next))
  }

  function SessionOf(id: nat, b: Binding, project: string): Session {
    Session(project, id, b.input.workerId, b.input.incarnation, b.input.generation, b.input.runId,
            b.input.lineageId, b.epoch, false)
  }

  function CreateIn(s: State, id: nat, sessionId: string, project: string): (State, Result<Session, Error>) {
    if !IsUuid(sessionId) then (s, Failure(BadSessionId))
    else if !IsProjectName(project) then (s, Failure(BadProjectName))
    else if sessionId in s.disk.sessions then (s, Failure(SessionExists))
    else if Current(s.disk, id).Failure? then (s, Failure(Current(s.disk, id).error))
    else
      var session := SessionOf(id, Current(s.disk, id).value, project);
      (s.(disk := s.disk.(sessions := s.disk.sessions[sessionId := session])), Success(session))
  }

  function Resume(d: Disk, id: nat, sessionId: string): Result<Session, Error> {
    if Current(d, id).Failure? then Failure(Current(d, id).error)
    else if sessionId !in d.sessions || d.sessions[sessionId].retired then Failure(SessionInactive)
    else
      var session, b := d.sessions[sessionId], Current(d, id).value;
      if session.bindingId != id || session.workerId != b.input.workerId || session.incarnation != b.input.incarnation
         || session.generation != b.input.generation || session.runId != b.input.runId
         || session.lineageId != b.input.lineageId || session.epoch != b.epoch
      then Failure(ForeignSession)
      else Success(session)
  }

  function BeginIn(s: State, id: nat): (State, Result<nat, Error>) {
    if Current(s.disk, id).Failure? then (s, Failure(Current(s.disk, id).error))
    else if s.active.Some? then (s, Failure(ProcessActive))
    else (s.(active := Some(id), handles := s.handles + [Handle(id, false)],
             disk := s.disk.(processStarts := s.disk.processStarts + 1)),
          Success(|s.handles|))
  }

  function ReleaseIn(s: State, h: nat): State
    requires h < |s.handles|
  {
    if s.handles[h].released then s
    else s.(handles := s.handles[h := s.handles[h].(released := true)],
            active := if s.active == Some(s.handles[h].binding) then None else s.active,
            logout := if s.logout == WaitingForIdle then Woken else s.logout)
  }

  function RetireAll(bindings: map<nat, Binding>): map<nat, Binding> {
    map id | id in bindings :: bindings[id].(retired := true)
  }

  function RetireRun(bindings: map<nat, Binding>, runId: string): map<nat, Binding> {
    map id | id in bindings :: if bindings[id].input.runId == runId then bindings[id].(retired := true)
                               else bindings[id]
  }

  function RetireSessions(sessions: map<string, Session>, runId: string): map<string, Session> {
    map id | id in sessions :: if sessions[id].runId == runId then sessions[id].(retired := true) else sessions[id]
  }

  /** The end of a logout, once nothing is awaited any more. */
  function FinishLogout(s: State): (State, Result<(), Error>) {
    if s.active.Some? then (s.(logout := NoLogout), Failure(DidNotQuiesce))
    else (s.(logout := NoLogout,
             disk := s.disk.(generation := s.disk.generation + 1, account := Disconnected,
                             bindings := RetireAll(s.disk.bindings))),
          Success(()))
  }

  /** A logout request: it completes at once, or (None) waits for the process to be released. */
  function RequestLogoutIn(s: State): (State, Option<Result<(), Error>>) {
    if s.disk.account != Authenticated then (s, Some(Failure(CannotLogOut)))
    else
      var s := s.(disk := s.disk.(account := RevocationRequested));
      if s.active.Some? then (s.(logout := WaitingForIdle), None)
      else (FinishLogout(s).0, Some(FinishLogout(s).1))
  }

  function RolloverIn(s: State): (State, Result<(), Error>) {
    if s.active.Some? then (s, Failure(ProcessActive))
    else (s.(disk := s.disk.(generation := s.disk.generation + 1, bindings := RetireAll(s.disk.bindings))), Success(()))
  }

  function ReplaceIn(s: State, runId: string): State {
    s.(disk := s.disk.(epochs := s.disk.epochs[runId := Epoch(s.disk, runId, 0) + 1],
                       bindings := RetireRun(s.disk.bindings, runId)))
  }

  function CleanupIn(s: State, runId: string): State {
    s.(disk := s.disk.(bindings := RetireRun(s.disk.bindings, runId),
                       sessions := RetireSessions(s.disk.sessions, runId)))
  }

  predicate IsMax(ids: set<nat>, m: nat) {
    m in ids && forall id :: id in ids ==> id <= m
  }

  /** The least number above every binding id. */
  function FreshId(ids: set<nat>): (next: nat)
    ensures next >= 1 && forall id :: id in ids ==> id < next
    ensures next > 1 ==> next - 1 in ids
  {
    if ids == {} then 1
    else
      MaxExists(ids);
      var m :| m in ids && IsMax(ids, m);
      m + 1
  }

  lemma FreshIdIsLeast(ids: set<nat>, next: nat)
    requires next >= 1 && (forall id :: id in ids ==> id < next) && (next > 1 ==> next - 1 in ids)
    ensures next == FreshId(ids)
  {
    var least := FreshId(ids);
    assert next > 1 ==> next - 1 < least;
    assert least > 1 ==> least - 1 < next;
  }

  lemma {:induction false} MaxExists(ids: set<nat>)
    requires ids != {}
    ensures exists m :: m in ids && IsMax(ids, m)
    decreases |ids|
  {
    var i :| i in ids;
    var rest := ids - {i};
    if rest != {} {
      MaxExists(rest);
      var m :| m in rest && IsMax(rest, m);
      var top := if m < i then i else m;
      assert ids == rest + {i};
      assert IsMax(ids, top);
    } else {
      assert IsMax({i}, i) && ids == {i};
    }
  }

  /** A new authority over the same disk: running processes and pending logouts are gone. */
  function Reconstruct(d: Disk): State {
    State(d, FreshId(d.bindings.Keys), None, [], NoLogout)
  }

  // ---------- the objects ----------

  /** The state that outlives the authority. */
  class SafeAuthorityDisk {
    const workerId: string
    const accountId: string
    const incarnation: string
    var generation: nat
    var account: AccountState
    var epochs: map<string, nat>
    var bindings: map<nat, Binding>
    var sessions: map<string, Session>
    var processStarts: nat

    function Contents(): Disk
      reads this
    {
      Disk(workerId, accountId, incarnation, generation, account, epochs, bindings, sessions, processStarts)
    }

    constructor Authenticated(workerId: string, accountId: string, incarnation: string, generation: nat)
      ensures Contents() ==
              Disk(workerId, accountId, incarnation, generation, AccountState.Authenticated, map[], map[], map[], 0)
    {
      this.workerId, this.accountId, this.incarnation, this.generation := workerId, accountId, incarnation, generation;
      account, epochs, bindings, sessions, processStarts := AccountState.Authenticated, map[], map[], map[], 0;
    }

    /** Retires every binding, or those of one run. */
    method Retire(runId: Option<string>)
      modifies this`bindings
      ensures bindings == if runId.Some? then RetireRun(old(bindings), runId.value) else RetireAll(old(bindings))
    {
      ghost var target := if runId.Some? then RetireRun(bindings, runId.value) else RetireAll(bindings);
      var todo := bindings.Keys;
      while todo != {}
        invariant todo <= bindings.Keys == target.Keys
        invariant forall id :: id in bindings ==> bindings[id] == if id in todo then old(bindings)[id] else target[id]
      {
        var id :| id in todo;
        if runId.None? || bindings[id].input.runId == runId.value {
          bindings := bindings[id := bindings[id].(retired := true)];
        }
        todo := todo - {id};
      }
      assert bindings == target;
    }

    method RetireSessionsOf(runId: string)
      modifies this`sessions
      ensures sessions == RetireSessions(old(sessions), runId)
    {
      ghost var target := RetireSessions(sessions, runId);
      var todo := sessions.Keys;
      while todo != {}
        invariant todo <= sessions.Keys == target.Keys
        invariant forall id :: id in sessions ==> sessions[id] == if id in todo then old(sessions)[id] else target[id]
      {
        var id :| id in todo;
        if sessions[id].runId == runId {
          sessions := sessions[id := sessions[id].(retired := true)];
        }
        todo := todo - {id};
      }
      assert sessions == target;
    }
  }

  class FakeExecutionAuthority {
    const disk: SafeAuthorityDisk
    var nextBinding: nat
    var active: Option<nat>
    var handles: seq<Handle>
    var logout: Logout

    function Snapshot(): State
      reads this, disk
    {
      State(disk.Contents(), nextBinding, active, handles, logout)
    }

    constructor (disk: SafeAuthorityDisk)
      ensures this.disk == disk && Snapshot() == Reconstruct(disk.Contents())
    {
      this.disk := disk;
      active, handles, logout := None, [], NoLogout;
      nextBinding := 1;
      new;
      var ids := disk.bindings.Keys;
      var todo := ids;
      while todo != {}
        invariant todo <= ids
        invariant 1 <= nextBinding && forall id :: id in ids && id !in todo ==> id < nextBinding
        invariant nextBinding > 1 ==> nextBinding - 1 in ids
        invariant active == None && handles == [] && logout == NoLogout
      {
        var id :| id in todo;
        if nextBinding < id + 1 { nextBinding := id + 1; }
        todo := todo - {id};
      }
      FreshIdIsLeast(ids, nextBinding);
    }

    method Bind(input: BindingInput) returns (r: Result<nat, Error>)
      modifies this, disk
      ensures (Snapshot(), r) == BindIn(old(Snapshot()), input)
    {
      if !InContext(disk.Contents(), input) { return Failure(StaleContext); }
      if disk.account != Authenticated { return Failure(Fenced); }
      var epoch := if input.runId in disk.epochs then disk.epochs[input.runId] else 1;
      disk.epochs := disk.epochs[input.runId := epoch];
      var id := nextBinding;
      nextBinding := nextBinding + 1;
      disk.bindings := disk.bindings[id := Binding(input, epoch, false)];
      return Success(id);
    }

    method CurrentBinding(id: nat) returns (r: Result<Binding, Error>)
      ensures r == Current(disk.Contents(), id)
    {
      if id !in disk.bindings || disk.bindings[id].retired { return Failure(BindingRetired); }
      var b := disk.bindings[id];
      if !InContext(disk.Contents(), b.input) { return Failure(StaleContext); }
      if disk.account != Authenticated { return Failure(AccountUnavailable); }
      var epoch := if b.input.runId in disk.epochs then disk.epochs[b.input.runId] else 0;
      if b.epoch != epoch { return Failure(StaleEpoch); }
      return Success(b);
    }

    method CreateNativeSession(id: nat, sessionId: string, project: string) returns (r: Result<Session, Error>)
      modifies disk
      ensures (Snapshot(), r) == CreateIn(old(Snapshot()), id, sessionId, project)
    {
      if !IsUuid(sessionId) { return Failure(BadSessionId); }
      if !IsProjectName(project) { return Failure(BadProjectName); }
      if sessionId in disk.sessions { return Failure(SessionExists); }
      var b := CurrentBinding(id);
      if b.Failure? { return Failure(b.error); }
      var session := SessionOf(id, b.value, project);
      disk.sessions := disk.sessions[sessionId := session];
      return Success(session);
    }

    method ResumeNativeSession(id: nat, sessionId: string) returns (r: Result<Session, Error>)
      ensures r == Resume(disk.Contents(), id, sessionId)
    {
      var b := CurrentBinding(id);
      if b.Failure? { return Failure(b.error); }
      if sessionId !in disk.sessions || disk.sessions[sessionId].retired { return Failure(SessionInactive); }
      var session := disk.sessions[sessionId];
      if session.bindingId != id || session.workerId != b.value.input.workerId
         || session.incarnation != b.value.input.incarnation || session.generation != b.value.input.generation
         || session.runId != b.value.input.runId || session.lineageId != b.value.input.lineageId
         || session.epoch != b.value.epoch
      {
        return Failure(ForeignSession);
      }
      return Success(session);
    }

    method BeginProviderProcess(id: nat) returns (r: Result<nat, Error>)
      modifies this, disk
      ensures (Snapshot(), r) == BeginIn(old(Snapshot()), id)
    {
      var b := CurrentBinding(id);
      if b.Failure? { return Failure(b.error); }
      if active.Some? { return Failure(ProcessActive); }
      active := Some(id);
      disk.processStarts := disk.processStarts + 1;
      handles := handles + [Handle(id, false)];
      return Success(|handles| - 1);
    }

    /** Calling a release closure. */
    method Release(h: nat)
      requires h < |handles|
      modifies this
      ensures Snapshot() == ReleaseIn(old(Snapshot()), h)
    {
      if handles[h].released { return; }
      var binding := handles[h].binding;
      handles := handles[h := handles[h].(released := true)];
      if active == Some(binding) { active := None; }
      if logout == WaitingForIdle { logout := Woken; }
    }

    method RequestLogout() returns (r: Option<Result<(), Error>>)
      modifies this, disk
      ensures (Snapshot(), r) == RequestLogoutIn(old(Snapshot()))
    {
      if disk.account != Authenticated { return Some(Failure(CannotLogOut)); }
      disk.account := RevocationRequested;
      if active.Some? {
        logout := WaitingForIdle;
        return None;
      }
      var finished := ContinueLogout();
      return Some(finished);
    }

    /** What remains of a logout once nothing is awaited. */
    method ContinueLogout() returns (r: Result<(), Error>)
      modifies this, disk
      ensures (Snapshot(), r) == FinishLogout(old(Snapshot()))
    {
      logout := NoLogout;
      if active.Some? { return Failure(DidNotQuiesce); }
      disk.generation := disk.generation + 1;
      disk.account := Disconnected;
      disk.Retire(None);
      return Success(());
    }

    method RolloverCredentialGeneration() returns (r: Result<(), Error>)
      modifies disk
      ensures (Snapshot(), r) == RolloverIn(old(Snapshot()))
    {
      if active.Some? { return Failure(ProcessActive); }
      disk.generation := disk.generation + 1;
      disk.Retire(None);
      return Success(());
    }

    method ReplaceRunEnvironment(runId: string)
      modifies disk
      ensures Snapshot() == ReplaceIn(old(Snapshot()), runId)
    {
      var nextEpoch := (if runId in disk.epochs then disk.epochs[runId] else 0) + 1;
      disk.epochs := disk.epochs[runId := nextEpoch];
      disk.Retire(Some(runId));
    }

    method CleanupRun(runId: string)
      modifies disk
      ensures Snapshot() == CleanupIn(old(Snapshot()), runId)
    {
      disk.Retire(Some(runId));
      disk.RetireSessionsOf(runId);
    }
  }
}
