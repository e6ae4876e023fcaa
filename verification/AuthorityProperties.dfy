/** What every run of the execution authority satisfies, reconstruction from disk included. */
module AuthorityProperties {
  import opened Wrappers
  import opened ExecutionAuthority

  // ---------- runs ----------

  datatype Operation =
    | Bind(input: BindingInput)
    | CreateSession(id: nat, sessionId: string, project: string)
    | Begin(id: nat)
    | Release(handle: nat)
    | RequestLogout
    | ContinueLogout
    | Rollover
    | Replace(runId: string)
    | Cleanup(runId: string)
    | Restart

  /** A woken logout continues some time after it was woken; a handle exists once it was returned. */
  predicate Possible(s: State, op: Operation) {
    (op.Release? ==> op.handle < |s.handles|) && (op.ContinueLogout? ==> s.logout == Woken)
  }

  function Perform(s: State, op: Operation): State
    requires Possible(s, op)
  {
    match op
    case Bind(input) => BindIn(s, input).0
    case CreateSession(id, sessionId, project) => CreateIn(s, id, sessionId, project).0
    case Begin(id) => BeginIn(s, id).0
    case Release(h) => ReleaseIn(s, h)
    case RequestLogout => RequestLogoutIn(s).0
    case ContinueLogout => FinishLogout(s).0
    case Rollover => RolloverIn(s).0
    case Replace(runId) => ReplaceIn(s, runId)
    case Cleanup(runId) => CleanupIn(s, runId)
    case Restart => Reconstruct(s.disk)
  }

  function After(s: State, ops: seq<Operation>): Option<State> {
    if ops == [] then Some(s)
    else
      var before, op := After(s, ops[..|ops|-1]), ops[|ops|-1];
      if before.Some? && Possible(before.value, op) then Some(Perform(before.value, op)) else None
  }

  /** A freshly authenticated account: nothing bound, nothing running. */
  predicate Initial(s: State) {
    && s == Reconstruct(s.disk)
    && s.disk.account == Authenticated && s.disk.processStarts == 0
    && s.disk.epochs == map[] && s.disk.bindings == map[] && s.disk.sessions == map[]
  }

  // ---------- the invariant ----------

  /** An unretired binding is of the present: worker, incarnation, generation and run epoch. */
  predicate BindingsCurrent(d: Disk) {
    forall id | id in d.bindings ::
      && id > 0
      && (!d.bindings[id].retired ==>
            && InContext(d, d.bindings[id].input)
            && d.bindings[id].input.runId in d.epochs
            && d.epochs[d.bindings[id].input.runId] == d.bindings[id].epoch
            && d.account != Disconnected)
  }

  /** A session carries the fields of the binding that created it. */
  predicate SessionsMatch(d: Disk) {
    forall k | k in d.sessions ::
      && d.sessions[k].bindingId in d.bindings
      && var session := d.sessions[k];
         session ==
         SessionOf(session.bindingId, d.bindings[session.bindingId], session.project).(retired := session.retired)
  }

  /** A process is active exactly while one handle, the last, is unreleased. */
  predicate ProcessTracked(s: State) {
    && (forall h :: 0 <= h < |s.handles| ==> (s.handles[h].released <==> !(s.active.Some? && h == |s.handles| - 1)))
    && (s.active.Some? ==> s.handles != [] && s.handles[|s.handles|-1] == Handle(s.active.value, false))
    && (s.active.Some? ==>
          && s.active.value in s.disk.bindings
          && s.disk.bindings[s.active.value].input.generation == s.disk.generation
          && s.disk.account != Disconnected)
    && (s.logout == WaitingForIdle <==> s.logout != NoLogout && s.active.Some?)
    && (s.logout != NoLogout ==> s.disk.account == RevocationRequested)
    && (s.disk.account == RevocationRequested && s.active.Some? ==> s.logout == WaitingForIdle)
  }

  predicate Inv(s: State) {
    && (forall id :: id in s.disk.bindings ==> id < s.next)
    && s.next > 0 && (s.next > 1 ==> s.next - 1 in s.disk.bindings)
    && BindingsCurrent(s.disk) && SessionsMatch(s.disk) && ProcessTracked(s)
  }

  predicate SameBinding(a: Binding, b: Binding) {
    b.input == a.input && b.epoch == a.epoch && (a.retired ==> b.retired)
  }

  predicate SameSession(a: Session, b: Session) {
    b == a.(retired := b.retired) && (a.retired ==> b.retired)
  }

  /** What no operation undoes: bindings and sessions stay as created, except that they may retire;
      new bindings have new ids; a fenced account stays fenced. */
  predicate Extends(s: State, t: State) {
    && s.next <= t.next
    && s.disk.generation <= t.disk.generation
    && (forall id :: id in s.disk.bindings ==>
          id in t.disk.bindings && SameBinding(s.disk.bindings[id], t.disk.bindings[id]))
    && (forall id :: id in t.disk.bindings && id !in s.disk.bindings ==> s.next <= id)
    && (forall k :: k in s.disk.sessions ==>
          k in t.disk.sessions && SameSession(s.disk.sessions[k], t.disk.sessions[k]))
    && (s.disk.account == Disconnected ==> t.disk.account == Disconnected)
    && (s.disk.account != Authenticated ==> t.disk.account != Authenticated)
  }

  /** One operation keeps the invariant and extends the state. */
  predicate Sound(s: State, t: State) {
    Inv(t) && Extends(s, t)
  }

  lemma BindSound(s: State, input: BindingInput)
    requires Inv(s)
    ensures Sound(s, BindIn(s, input).0)
  {
    BindExtends(s, input);
    BindKeeps(s, input);
  }

  lemma BindExtends(s: State, input: BindingInput)
    requires Inv(s)
    ensures Extends(s, BindIn(s, input).0)
  {
  }

  lemma BindKeeps(s: State, input: BindingInput)
    requires Inv(s)
    ensures Inv(BindIn(s, input).0)
  {
  }

  lemma CreateSound(s: State, id: nat, sessionId: string, project: string)
    requires Inv(s)
    ensures Sound(s, CreateIn(s, id, sessionId, project).0)
  {
    CreateExtends(s, id, sessionId, project);
    CreateKeeps(s, id, sessionId, project);
  }

  lemma CreateExtends(s: State, id: nat, sessionId: string, project: string)
    ensures Extends(s, CreateIn(s, id, sessionId, project).0)
  {
  }

  lemma CreateKeeps(s: State, id: nat, sessionId: string, project: string)
    requires Inv(s)
    ensures Inv(CreateIn(s, id, sessionId, project).0)
  {
  }

  lemma BeginSound(s: State, id: nat)
    requires Inv(s)
    ensures Sound(s, BeginIn(s, id).0)
  {
  }

  lemma ReleaseSound(s: State, h: nat)
    requires Inv(s) && h < |s.handles|
    ensures Sound(s, ReleaseIn(s, h))
  {
  }

  lemma FinishSound(s: State)
    requires Inv(s) && s.active.None?
    ensures Sound(s, FinishLogout(s).0)
  {
  }

  lemma RequestSound(s: State)
    requires Inv(s)
    ensures Sound(s, RequestLogoutIn(s).0)
  {
    if s.disk.account == Authenticated && s.active.None? {
      var fenced := s.(disk := s.disk.(account := RevocationRequested));
      assert Sound(s, fenced);
      FinishSound(fenced);
    }
  }

  lemma RolloverSound(s: State)
    requires Inv(s)
    ensures Sound(s, RolloverIn(s).0)
  {
  }

  lemma ReplaceSound(s: State, runId: string)
    requires Inv(s)
    ensures Sound(s, ReplaceIn(s, runId))
  {
    ReplaceExtends(s, runId);
    ReplaceKeeps(s, runId);
  }

  lemma ReplaceExtends(s: State, runId: string)
    ensures Extends(s, ReplaceIn(s, runId))
  {
  }

  lemma ReplaceKeeps(s: State, runId: string)
    requires Inv(s)
    ensures Inv(ReplaceIn(s, runId))
  {
  }

  lemma CleanupSound(s: State, runId: string)
    requires Inv(s)
    ensures Sound(s, CleanupIn(s, runId))
  {
    CleanupExtends(s, runId);
    CleanupKeeps(s, runId);
  }

  lemma CleanupExtends(s: State, runId: string)
    ensures Extends(s, CleanupIn(s, runId))
  {
  }

  lemma CleanupKeeps(s: State, runId: string)
    requires Inv(s)
    ensures Inv(CleanupIn(s, runId))
  {
  }

  lemma RestartSound(s: State)
    requires Inv(s)
    ensures Sound(s, Reconstruct(s.disk))
  {
    FreshIdIsLeast(s.disk.bindings.Keys, s.next);
  }

  lemma StepSound(s: State, op: Operation)
    requires Inv(s) && Possible(s, op)
    ensures Sound(s, Perform(s, op))
  {
    match op
    case Bind(input) => BindSound(s, input);
    case CreateSession(id, sessionId, project) => CreateSound(s, id, sessionId, project);
    case Begin(id) => BeginSound(s, id);
    case Release(h) => ReleaseSound(s, h);
    case RequestLogout => RequestSound(s);
    case ContinueLogout => FinishSound(s);
    case Rollover => RolloverSound(s);
    case Replace(runId) => ReplaceSound(s, runId);
    case Cleanup(runId) => CleanupSound(s, runId);
    case Restart => RestartSound(s);
  }

  lemma ExtendsTransitively(s: State, t: State, u: State)
    requires Extends(s, t) && Extends(t, u)
    ensures Extends(s, u)
  {
  }

  lemma {:induction false} Invariant(s: State, ops: seq<Operation>, t: State)
    requires Initial(s) && After(s, ops) == Some(t)
    ensures Inv(t)
  {
    if ops != [] {
      var before := After(s, ops[..|ops|-1]).value;
      Invariant(s, ops[..|ops|-1], before);
      StepSound(before, ops[|ops|-1]);
    }
  }

  // ---------- bindings and sessions ----------

  /** The four checks of currentBinding come down to two: the binding is unretired, and the account
      is authenticated. The other two errors cannot occur. */
  lemma CurrentExactly(s: State, ops: seq<Operation>, t: State, id: nat)
    requires Initial(s) && After(s, ops) == Some(t)
    ensures Current(t.disk, id).Success? <==>
            id in t.disk.bindings && !t.disk.bindings[id].retired && t.disk.account == Authenticated
    ensures Current(t.disk, id).Failure? ==>
              Current(t.disk, id).error in {BindingRetired, AccountUnavailable}
  {
    Invariant(s, ops, t);
  }

  /** The seven-field comparison comes down to the binding's identity. */
  lemma ResumeExactly(s: State, ops: seq<Operation>, t: State, id: nat, sessionId: string)
    requires Initial(s) && After(s, ops) == Some(t)
    ensures Resume(t.disk, id, sessionId).Success? <==>
            && Current(t.disk, id).Success?
            && sessionId in t.disk.sessions && !t.disk.sessions[sessionId].retired
            && t.disk.sessions[sessionId].bindingId == id
  {
    Invariant(s, ops, t);
  }

  lemma {:induction false} RunExtends(s: State, ops: seq<Operation>, t: State)
    requires Inv(s) && After(s, ops) == Some(t)
    ensures Inv(t) && Extends(s, t)
  {
    if ops != [] {
      var before := After(s, ops[..|ops|-1]).value;
      RunExtends(s, ops[..|ops|-1], before);
      StepSound(before, ops[|ops|-1]);
      ExtendsTransitively(s, before, t);
    }
  }

  /** Binding ids are never reused, restarts included: a new binding's id differs from every earlier one. */
  lemma BindingIdsAreFresh(s: State, first: seq<Operation>, t: State, more: seq<Operation>, u: State,
                           input: BindingInput)
    requires Initial(s) && After(s, first) == Some(t) && After(t, more) == Some(u)
    requires BindIn(u, input).1.Success?
    ensures BindIn(u, input).1.value !in t.disk.bindings && BindIn(u, input).1.value !in u.disk.bindings
  {
    Invariant(s, first, t);
    RunExtends(t, more, u);
  }

  /** Once a binding is retired, no later state accepts it, and the sessions it created never resume
      again, whatever binding they are presented with. */
  lemma RetirementIsFinal(s: State, first: seq<Operation>, t: State, more: seq<Operation>, u: State, id: nat)
    requires Initial(s) && After(s, first) == Some(t) && After(t, more) == Some(u)
    requires id in t.disk.bindings && t.disk.bindings[id].retired
    ensures Current(u.disk, id) == Failure(BindingRetired)
    ensures forall k, other: nat :: k in t.disk.sessions && t.disk.sessions[k].bindingId == id ==>
              Resume(u.disk, other, k).Failure?
  {
    Invariant(s, first, t);
    RunExtends(t, more, u);
    forall k, other: nat | k in t.disk.sessions && t.disk.sessions[k].bindingId == id
      ensures Resume(u.disk, other, k).Failure?
    {
      assert SameSession(t.disk.sessions[k], u.disk.sessions[k]);
    }
  }

  /** The operations that end a run's bindings: a logout request, a rollover while idle, and the run's own
      replacement or cleanup. */
  predicate Ends(s: State, op: Operation, runId: string) {
    match op
    case RequestLogout => true
    case Rollover => s.active.None?
    case Replace(r) => r == runId
    case Cleanup(r) => r == runId
    case _ => false
  }

  /** None of the operations, taken from s on, ends this run's bindings. */
  predicate LeftAlone(s: State, ops: seq<Operation>, runId: string) {
    ops == [] ||
    var before := After(s, ops[..|ops|-1]);
    LeftAlone(s, ops[..|ops|-1], runId) && (before.Some? ==> !Ends(before.value, ops[|ops|-1], runId))
  }

  /** The session, presented with the binding, resumes. */
  predicate Usable(s: State, id: nat, sessionId: string) {
    Resume(s.disk, id, sessionId).Success?
  }

  lemma CurrentStep(s: State, op: Operation, id: nat, runId: string)
    requires Inv(s) && Possible(s, op) && id in s.disk.bindings && s.disk.bindings[id].input.runId == runId
    requires s.disk.account == Authenticated && !s.disk.bindings[id].retired
    ensures var t := Perform(s, op);
            && id in t.disk.bindings
            && (t.disk.account == Authenticated && !t.disk.bindings[id].retired <==> !Ends(s, op, runId))
  {
  }

  lemma SessionStep(s: State, op: Operation, id: nat, sessionId: string)
    requires Inv(s) && Possible(s, op) && id in s.disk.bindings && sessionId in s.disk.sessions
    requires s.disk.sessions[sessionId].bindingId == id && !s.disk.sessions[sessionId].retired
    requires !Ends(s, op, s.disk.bindings[id].input.runId)
    ensures var t := Perform(s, op);
            && sessionId in t.disk.sessions && t.disk.sessions[sessionId].bindingId == id
            && !t.disk.sessions[sessionId].retired
  {
    if op.Cleanup? {
      assert s.disk.sessions[sessionId].runId == s.disk.bindings[id].input.runId;
    } else if !op.CreateSession? {
      SessionsUntouched(s, op);
    }
  }

  lemma SessionsUntouched(s: State, op: Operation)
    requires Possible(s, op) && !op.Cleanup? && !op.CreateSession?
    ensures Perform(s, op).disk.sessions == s.disk.sessions
  {
  }

  /** A binding in use, and a session that resumes with it, stay usable exactly as long as nothing ends the
      run's bindings: operations on other runs, restarts included, never do. */
  lemma {:induction false} RunsAreIsolated(s: State, first: seq<Operation>, t: State, ops: seq<Operation>, u: State,
                                           id: nat, sessionId: string)
    requires Initial(s) && After(s, first) == Some(t) && After(t, ops) == Some(u)
    requires Usable(t, id, sessionId)
    ensures Current(u.disk, id).Success? <==> LeftAlone(t, ops, t.disk.bindings[id].input.runId)
    ensures Usable(u, id, sessionId) <==> LeftAlone(t, ops, t.disk.bindings[id].input.runId)
  {
    var runId := t.disk.bindings[id].input.runId;
    Invariant(s, first, t);
    if ops != [] {
      var before, op := After(t, ops[..|ops|-1]).value, ops[|ops|-1];
      RunsAreIsolated(s, first, t, ops[..|ops|-1], before, id, sessionId);
      IsolationStep(t, ops[..|ops|-1], before, op, id, sessionId);
    }
  }

  lemma IsolationStep(t: State, ops: seq<Operation>, before: State, op: Operation, id: nat, sessionId: string)
    requires Inv(t) && After(t, ops) == Some(before) && Possible(before, op) && Usable(t, id, sessionId)
    requires Usable(before, id, sessionId) <==> Current(before.disk, id).Success?
    ensures var runId, u := t.disk.bindings[id].input.runId, Perform(before, op);
            && (Current(u.disk, id).Success? <==> Current(before.disk, id).Success? && !Ends(before, op, runId))
            && (Usable(u, id, sessionId) <==> Current(u.disk, id).Success?)
  {
    RunExtends(t, ops, before);
    StepSound(before, op);
    if Current(before.disk, id).Success? {
      CurrentStep(before, op, id, t.disk.bindings[id].input.runId);
      if !Ends(before, op, t.disk.bindings[id].input.runId) {
        SessionStep(before, op, id, sessionId);
      }
    }
  }

  // ---------- the provider process and logout ----------

  function LastHandle(s: State): nat {
    if s.handles == [] then 0 else |s.handles| - 1
  }

  /** While a process is active no second one starts, and within one authority the generation stands
      still; only the handle it returned ends it, and only the first time it is called. */
  lemma ProcessHoldsTheAccount(s: State, ops: seq<Operation>, t: State, op: Operation)
    requires Initial(s) && After(s, ops) == Some(t)
    requires t.active.Some? && Possible(t, op) && op != Restart
    ensures var u := Perform(t, op);
            && u.disk.generation == t.disk.generation
            && u.disk.processStarts == t.disk.processStarts
            && (if op == Release(LastHandle(t)) then u.active == None else u.active == t.active)
  {
    Invariant(s, ops, t);
    if op.Release? {
      OneHandleEnds(t, op.handle);
    } else {
      OthersHold(t, op);
    }
  }

  lemma OneHandleEnds(t: State, h: nat)
    requires ProcessTracked(t) && t.active.Some? && h < |t.handles|
    ensures ReleaseIn(t, h).disk == t.disk
    ensures ReleaseIn(t, h).active == if h == LastHandle(t) then None else t.active
  {
  }

  lemma OthersHold(t: State, op: Operation)
    requires Inv(t) && t.active.Some? && Possible(t, op) && op != Restart && !op.Release?
    ensures var u := Perform(t, op);
            && u.disk.generation == t.disk.generation
            && u.disk.processStarts == t.disk.processStarts && u.active == t.active
  {
  }

  /** A release closure is idempotent, and one whose process already ended changes nothing at all. */
  lemma ReleaseIsIdempotent(s: State, ops: seq<Operation>, t: State, h: nat)
    requires Initial(s) && After(s, ops) == Some(t) && h < |t.handles|
    ensures ReleaseIn(ReleaseIn(t, h), h) == ReleaseIn(t, h)
    ensures !(t.active.Some? && h == LastHandle(t)) ==> ReleaseIn(t, h) == t
  {
    Invariant(s, ops, t);
  }

  /** Once logout has been requested no process ever starts and no binding is ever made again. */
  lemma {:induction false} FencedForGood(s: State, first: seq<Operation>, t: State, more: seq<Operation>, u: State,
                                         id: nat, input: BindingInput)
    requires Initial(s) && After(s, first) == Some(t) && After(t, more) == Some(u)
    requires t.disk.account != Authenticated
    ensures BeginIn(u, id).1.Failure? && BindIn(u, input).1.Failure?
    ensures u.disk.processStarts == t.disk.processStarts && u.disk.bindings.Keys == t.disk.bindings.Keys
  {
    Invariant(s, first, t);
    RunExtends(t, more, u);
    if more != [] {
      var before := After(t, more[..|more|-1]).value;
      FencedForGood(s, first, t, more[..|more|-1], before, id, input);
      RunExtends(t, more[..|more|-1], before);
      FencedStep(before, more[|more|-1]);
    }
  }

  lemma FencedStep(s: State, op: Operation)
    requires s.disk.account != Authenticated && Possible(s, op)
    ensures Perform(s, op).disk.processStarts == s.disk.processStarts
    ensures Perform(s, op).disk.bindings.Keys == s.disk.bindings.Keys
  {
  }

  /** What becomes of a logout: requested while idle it is completed at once; while it is pending it completes
      if it continues before the authority is replaced, and is lost if the authority is replaced first. */
  datatype Fate = Pending | Completed | Lost

  function FateOf(requested: Fate, ops: seq<Operation>): Fate {
    if ops == [] then requested
    else
      var before, op := FateOf(requested, ops[..|ops|-1]), ops[|ops|-1];
      if before != Pending then before
      else if op == ContinueLogout then Completed
      else if op == Restart then Lost
      else Pending
  }

  /** The fate of a logout at its request. */
  function FateAtRequest(t: State): Fate {
    if t.active.Some? then Pending else Completed
  }

  predicate HasFate(fate: Fate, t: State, u: State) {
    match fate
    case Pending =>
      u.disk.account == RevocationRequested && u.logout == if u.active.Some? then WaitingForIdle else Woken
    case Completed => Ended(t, u)
    case Lost => Stuck(u)
  }

  /** The account is disconnected, under a later generation, and every binding is retired. */
  predicate Ended(t: State, u: State) {
    && u.disk.account == Disconnected && u.logout == NoLogout
    && t.disk.generation < u.disk.generation
    && (forall id :: id in u.disk.bindings ==> u.disk.bindings[id].retired)
  }

  /** The account waits for a logout that nobody carries out, and no other can be requested. */
  predicate Stuck(u: State) {
    && u.disk.account == RevocationRequested && u.logout == NoLogout
    && !Possible(u, ContinueLogout)
    && RequestLogoutIn(u) == (u, Some(Failure(CannotLogOut)))
  }

  lemma EndedStays(t: State, u: State, op: Operation)
    requires Ended(t, u) && Possible(u, op)
    ensures Ended(t, Perform(u, op))
  {
  }

  lemma StuckStays(u: State, op: Operation)
    requires Stuck(u) && Possible(u, op)
    ensures Stuck(Perform(u, op))
  {
  }

  lemma PendingStep(t: State, u: State, op: Operation)
    requires Inv(u) && HasFate(Pending, t, u) && Possible(u, op) && t.disk.generation <= u.disk.generation
    ensures var fate := if op == ContinueLogout then Completed else if op == Restart then Lost else Pending;
            HasFate(fate, t, Perform(u, op))
  {
  }

  /** A logout, in every run that follows its request: requested while idle it completes at once; requested
      while a process runs it stays pending, completes exactly when it continues with no restart before, and
      is lost for good exactly when a restart comes first. */
  lemma {:induction false} LogoutCompletes(s: State, first: seq<Operation>, t: State, ops: seq<Operation>, u: State)
    requires Initial(s) && After(s, first) == Some(t)
    requires t.disk.account == Authenticated
    requires After(RequestLogoutIn(t).0, ops) == Some(u)
    ensures RequestLogoutIn(t).1 == if t.active.None? then Some(Success(())) else None
    ensures HasFate(FateOf(FateAtRequest(t), ops), t, u)
    ensures u.disk.account == Disconnected <==> FateOf(FateAtRequest(t), ops) == Completed
  {
    var requested := RequestLogoutIn(t).0;
    Invariant(s, first, t);
    RequestSound(t);
    if ops != [] {
      var before, op := After(requested, ops[..|ops|-1]).value, ops[|ops|-1];
      LogoutCompletes(s, first, t, ops[..|ops|-1], before);
      RunExtends(requested, ops[..|ops|-1], before);
      match FateOf(FateAtRequest(t), ops[..|ops|-1])
      case Pending => PendingStep(t, before, op);
      case Completed => EndedStays(t, before, op);
      case Lost => StuckStays(before, op);
    }
  }

  /** While it is pending it can complete: the handle of the active process is released, if there is one,
      and the logout continues and does not fail. */
  lemma PendingCanComplete(s: State, first: seq<Operation>, t: State, ops: seq<Operation>, u: State)
    requires Initial(s) && After(s, first) == Some(t)
    requires t.disk.account == Authenticated
    requires After(RequestLogoutIn(t).0, ops) == Some(u) && FateOf(FateAtRequest(t), ops) == Pending
    ensures var idle := if u.active.Some? && u.handles != [] then ReleaseIn(u, LastHandle(u)) else u;
            && Possible(idle, ContinueLogout) && FinishLogout(idle).1 == Success(())
            && Ended(t, Perform(idle, ContinueLogout))
  {
    var requested := RequestLogoutIn(t).0;
    LogoutCompletes(s, first, t, ops, u);
    Invariant(s, first, t);
    RequestSound(t);
    RunExtends(requested, ops, u);
  }

  /** A run that loses it: after the restart the binding is still unretired and nobody can log out. */
  lemma LogoutIsLostByRestart(s: State, input: BindingInput)
    requires Initial(s) && InContext(s.disk, input)
    ensures var u := After(s, [Bind(input), Begin(s.next), RequestLogout, Restart]);
            && u.Some? && Stuck(u.value) && u.value.disk.generation == s.disk.generation
            && s.next in u.value.disk.bindings && !u.value.disk.bindings[s.next].retired
  {
    FourOperations(s, Bind(input), Begin(s.next), RequestLogout, Restart);
    FirstProcess(s, input);
    RestartLoses(Perform(Perform(s, Bind(input)), Begin(s.next)));
  }

  lemma FirstProcess(s: State, input: BindingInput)
    requires Initial(s) && InContext(s.disk, input)
    ensures var t := Perform(Perform(s, Bind(input)), Begin(s.next));
            && t.disk.account == Authenticated && t.active.Some? && t.disk.generation == s.disk.generation
            && s.next in t.disk.bindings && !t.disk.bindings[s.next].retired
  {
    var bound := BindIn(s, input).0;
    assert Current(bound.disk, s.next).Success?;
  }

  lemma RestartLoses(t: State)
    requires t.disk.account == Authenticated && t.active.Some?
    ensures var u := Perform(Perform(t, RequestLogout), Restart);
            Stuck(u) && u.disk.generation == t.disk.generation && u.disk.bindings == t.disk.bindings
  {
  }

  lemma FourOperations(s: State, a: Operation, b: Operation, c: Operation, d: Operation)
    requires Possible(s, a) && Possible(Perform(s, a), b) && Possible(Perform(Perform(s, a), b), c)
    requires Possible(Perform(Perform(Perform(s, a), b), c), d)
    ensures After(s, [a, b, c, d]) == Some(Perform(Perform(Perform(Perform(s, a), b), c), d))
  {
    assert [a][..0] == [] && [a, b][..1] == [a] && [a, b, c][..2] == [a, b] && [a, b, c, d][..3] == [a, b, c];
    assert After(s, [a]) == Some(Perform(s, a));
    assert After(s, [a, b]) == Some(Perform(Perform(s, a), b));
    assert After(s, [a, b, c]) == Some(Perform(Perform(Perform(s, a), b), c));
  }
}
