/** When the authority's operations succeed, what they leave behind, and for how long: the life of a binding and of
    the sessions created with it, and what the counters of the disk count. */
module AuthoritySessions {
  import opened Wrappers
  import opened ExecutionAuthority
  import opened AuthorityProperties

  // ---------- one operation ----------

  /** What a binding is for: the identities of the caller's input, under an epoch of its run. */
  predicate BindsFor(b: Binding, input: BindingInput, epochs: map<string, nat>) {
    && b.input == input && !b.retired
    && input.runId in epochs && b.epoch == epochs[input.runId]
  }

  /** Binding succeeds exactly for the present worker, incarnation and generation while the account is
      authenticated. The new binding is current and no other changes; a refusal changes nothing. */
  lemma BindExactly(s: State, ops: seq<Operation>, t: State, input: BindingInput)
    requires Initial(s) && After(s, ops) == Some(t)
    ensures var (u, r) := BindIn(t, input);
      && (r.Success? <==>
            && input.workerId == t.disk.workerId && input.incarnation == t.disk.incarnation
            && input.generation == t.disk.generation && t.disk.account == Authenticated)
      && (r.Failure? ==> u == t)
      && (r.Success? ==>
            && r.value !in t.disk.bindings && u.disk.bindings.Keys == t.disk.bindings.Keys + {r.value}
            && (forall id :: id in t.disk.bindings ==> u.disk.bindings[id] == t.disk.bindings[id])
            && BindsFor(u.disk.bindings[r.value], input, u.disk.epochs)
            && Current(u.disk, r.value) == Success(u.disk.bindings[r.value]))
  {
    Invariant(s, ops, t);
  }

  /** The record of a session names its project and carries the identities of its binding; it is in use. */
  predicate RecordOf(session: Session, project: string, id: nat, b: Binding) {
    && session.project == project && session.bindingId == id && !session.retired
    && session.workerId == b.input.workerId && session.incarnation == b.input.incarnation
    && session.generation == b.input.generation && session.runId == b.input.runId
    && session.lineageId == b.input.lineageId && session.epoch == b.epoch
  }

  /** A session is created exactly when its id is a new UUID, the project's name is valid, the binding is unretired
      and the account is authenticated. Then it resumes at once and no other session changes; a refusal changes
      nothing. */
  lemma CreateExactly(s: State, ops: seq<Operation>, t: State, id: nat, sessionId: string, project: string)
    requires Initial(s) && After(s, ops) == Some(t)
    ensures var (u, r) := CreateIn(t, id, sessionId, project);
      && (r.Success? <==>
            && IsUuid(sessionId) && IsProjectName(project) && sessionId !in t.disk.sessions
            && id in t.disk.bindings && !t.disk.bindings[id].retired && t.disk.account == Authenticated)
      && (r.Failure? ==> u == t)
      && (r.Success? ==>
            && RecordOf(r.value, project, id, t.disk.bindings[id]) && Resume(u.disk, id, sessionId) == Success(r.value)
            && u.disk.sessions.Keys == t.disk.sessions.Keys + {sessionId}
            && (forall k :: k in t.disk.sessions ==> u.disk.sessions[k] == t.disk.sessions[k])
            && u.disk.bindings == t.disk.bindings)
  {
    CurrentExactly(s, ops, t, id);
  }

  /** A process starts exactly when the binding is current and no process runs: it is then the active one, held by
      a new handle that is not yet released. */
  lemma BeginExactly(s: State, ops: seq<Operation>, t: State, id: nat)
    requires Initial(s) && After(s, ops) == Some(t)
    ensures var (u, r) := BeginIn(t, id);
      && (r.Success? <==>
            && id in t.disk.bindings && !t.disk.bindings[id].retired && t.disk.account == Authenticated
            && t.active == None)
      && (r.Failure? ==> u == t)
      && (r.Success? ==>
            && u.active == Some(id) && r.value == LastHandle(u) && |u.handles| == |t.handles| + 1
            && u.disk.processStarts == t.disk.processStarts + 1
            && ReleaseIn(u, r.value).active == None && ReleaseIn(u, r.value).disk == u.disk)
  {
    CurrentExactly(s, ops, t, id);
  }

  // ---------- formats ----------

  const HEX := "0123456789abcdefABCDEF"
  const DIGITS := "0123456789"
  const SMALL := "abcdefghijklmnopqrstuvwxyz"
  const CAPITAL := "ABCDEFGHIJKLMNOPQRSTUVWXYZ"

  predicate AllIn(s: string, chars: string) {
    forall c :: c in s ==> c in chars
  }

  /** A session id is a UUID as text: groups of 8, 4, 4, 4 and 12 hexadecimal digits, the third beginning with its
      version, the fourth with its variant. */
  lemma UuidShape(s: string)
    ensures IsUuid(s) <==>
      && |s| == 36 && s[8] == s[13] == s[18] == s[23] == '-'
      && AllIn(s[0..8], HEX) && AllIn(s[9..13], HEX) && AllIn(s[14..18], HEX) && AllIn(s[19..23], HEX)
      && AllIn(s[24..36], HEX) && s[14] in "12345" && s[19] in "89abAB"
  {
    if |s| == 36 {
      HexGroup(s, 0, 8);
      HexGroup(s, 9, 13);
      HexGroup(s, 14, 18);
      HexGroup(s, 19, 23);
      HexGroup(s, 24, 36);
    }
  }

  lemma HexGroup(s: string, lo: nat, hi: nat)
    requires lo <= hi <= |s|
    ensures AllIn(s[lo..hi], HEX) <==> forall i :: lo <= i < hi ==> Hex(s[i])
  {
    forall c: char ensures c in HEX <==> Hex(c) { HexChar(c); }
    forall i | lo <= i < hi ensures s[i] in s[lo..hi] {
      assert s[i] == s[lo..hi][i - lo];
    }
  }

  lemma HexChar(c: char)
    ensures c in HEX <==> Hex(c)
  {
  }

  /** A project's name has 1 to 64 letters, digits, underscores and hyphens. */
  lemma ProjectNameShape(s: string)
    ensures IsProjectName(s) <==>
            0 < |s| < 65 && forall c :: c in s ==> c in DIGITS || c in SMALL || c in CAPITAL || c in "_-"
  {
    assert forall i :: 0 <= i < |s| ==> s[i] in s;
    forall c: char { Ranges(c); }
  }

  lemma Ranges(c: char)
    ensures c in DIGITS <==> '0' <= c <= '9'
    ensures c in SMALL <==> 'a' <= c <= 'z'
    ensures c in CAPITAL <==> 'A' <= c <= 'Z'
  {
  }

  // ---------- over runs ----------

  lemma {:induction false} AfterOneMore(s: State, ops: seq<Operation>, t: State, op: Operation)
    requires After(s, ops) == Some(t) && Possible(t, op)
    ensures After(s, ops + [op]) == Some(Perform(t, op))
  {
    assert (ops + [op])[..|ops|] == ops;
  }

  /** From its creation on, a binding is current exactly as long as nothing ends its run's bindings. */
  lemma {:induction false} BoundUntilEnded(s: State, first: seq<Operation>, t: State, input: BindingInput,
                                           ops: seq<Operation>, u: State)
    requires Initial(s) && After(s, first) == Some(t) && BindIn(t, input).1.Success?
    requires After(BindIn(t, input).0, ops) == Some(u)
    ensures var bound, id := BindIn(t, input).0, BindIn(t, input).1.value;
      && id in u.disk.bindings && u.disk.bindings[id].input == input
      && (Current(u.disk, id).Success? <==> LeftAlone(bound, ops, input.runId))
  {
    var bound, id := BindIn(t, input).0, BindIn(t, input).1.value;
    BindExactly(s, first, t, input);
    Invariant(s, first, t);
    BindSound(t, input);
    RunExtends(bound, ops, u);
    if ops != [] {
      var before, op := After(bound, ops[..|ops|-1]).value, ops[|ops|-1];
      BoundUntilEnded(s, first, t, input, ops[..|ops|-1], before);
      RunExtends(bound, ops[..|ops|-1], before);
      CurrentMeans(before, id);
      CurrentMeans(u, id);
      if Current(before.disk, id).Success? {
        CurrentStep(before, op, id, input.runId);
      } else {
        EndedForGood(before, op, id);
      }
    }
  }

  lemma CurrentMeans(t: State, id: nat)
    requires Inv(t)
    ensures Current(t.disk, id).Success? <==>
            id in t.disk.bindings && !t.disk.bindings[id].retired && t.disk.account == Authenticated
  {
  }

  lemma EndedForGood(t: State, op: Operation, id: nat)
    requires Inv(t) && Possible(t, op) && id in t.disk.bindings && Current(t.disk, id).Failure?
    ensures Current(Perform(t, op).disk, id).Failure?
  {
    StepSound(t, op);
    CurrentMeans(t, id);
    CurrentMeans(Perform(t, op), id);
    assert SameBinding(t.disk.bindings[id], Perform(t, op).disk.bindings[id]);
  }

  /** From its creation on, a session resumes with its binding exactly as long as nothing ends its run's bindings,
      and what it resumes is the record that was created. */
  lemma ResumesUntilEnded(s: State, first: seq<Operation>, t: State, id: nat, sessionId: string, project: string,
                          ops: seq<Operation>, u: State)
    requires Initial(s) && After(s, first) == Some(t) && CreateIn(t, id, sessionId, project).1.Success?
    requires After(CreateIn(t, id, sessionId, project).0, ops) == Some(u)
    ensures var (created, r) := CreateIn(t, id, sessionId, project);
      && (Resume(u.disk, id, sessionId).Success? <==> LeftAlone(created, ops, r.value.runId))
      && (Resume(u.disk, id, sessionId).Success? ==> Resume(u.disk, id, sessionId) == Success(r.value))
  {
    var (created, r) := CreateIn(t, id, sessionId, project);
    CreateExactly(s, first, t, id, sessionId, project);
    AfterOneMore(s, first, t, CreateSession(id, sessionId, project));
    RunsAreIsolated(s, first + [CreateSession(id, sessionId, project)], created, ops, u, id, sessionId);
    Invariant(s, first + [CreateSession(id, sessionId, project)], created);
    RunExtends(created, ops, u);
    assert SameSession(created.disk.sessions[sessionId], u.disk.sessions[sessionId]);
  }

  /** The chain exists: a fresh account binds an input of its context, creates a session and resumes it. */
  lemma FirstSession(s: State, input: BindingInput, sessionId: string, project: string)
    requires Initial(s) && IsUuid(sessionId) && IsProjectName(project)
    ensures InContext(s.disk, input) <==>
            var u := After(s, [Bind(input), CreateSession(s.next, sessionId, project)]);
            u.Some? && Usable(u.value, s.next, sessionId)
  {
    assert [Bind(input)][..0] == [] && [Bind(input), CreateSession(s.next, sessionId, project)][..1] == [Bind(input)];
    assert After(s, []) == Some(s);
    BindExactly(s, [], s, input);
    assert After(s, [Bind(input)]) == Some(BindIn(s, input).0);
    CreateExactly(s, [Bind(input)], BindIn(s, input).0, s.next, sessionId, project);
  }

  // ---------- what the disk counts ----------

  /** The operations that move the account to another credential generation: a rollover while no process runs, a
      logout while none runs, and a logout that continues. */
  predicate Advances(s: State, op: Operation) {
    match op
    case Rollover => s.active.None?
    case RequestLogout => s.disk.account == Authenticated && s.active.None?
    case ContinueLogout => true
    case _ => false
  }

  predicate Starts(s: State, op: Operation) {
    && op.Begin? && s.active.None? && s.disk.account == Authenticated
    && op.id in s.disk.bindings && !s.disk.bindings[op.id].retired
  }

  function One(b: bool): nat {
    if b then 1 else 0
  }

  /** How often a run meets a condition. */
  function Times(s: State, ops: seq<Operation>, what: (State, Operation) -> bool): nat {
    if ops == [] then 0
    else
      var before := After(s, ops[..|ops|-1]);
      Times(s, ops[..|ops|-1], what) + One(before.Some? && what(before.value, ops[|ops|-1]))
  }

  /** The generation counts the rollovers and the logouts that took effect, the process starts the processes that
      were started, and the account is authenticated until a logout is requested. */
  lemma {:induction false} CountersExactly(s: State, ops: seq<Operation>, t: State)
    requires Initial(s) && After(s, ops) == Some(t)
    ensures t.disk.generation == s.disk.generation + Times(s, ops, Advances)
    ensures t.disk.processStarts == Times(s, ops, Starts)
    ensures t.disk.account == Authenticated <==> RequestLogout !in ops
  {
    if ops != [] {
      var before, op := After(s, ops[..|ops|-1]).value, ops[|ops|-1];
      CountersExactly(s, ops[..|ops|-1], before);
      Invariant(s, ops[..|ops|-1], before);
      InPrefix(ops, RequestLogout);
      CountersStep(before, op);
    }
  }

  lemma InPrefix(ops: seq<Operation>, op: Operation)
    requires ops != []
    ensures op in ops <==> op in ops[..|ops|-1] || op == ops[|ops|-1]
  {
    assert ops == ops[..|ops|-1] + [ops[|ops|-1]];
  }

  lemma CountersStep(s: State, op: Operation)
    requires Inv(s) && Possible(s, op)
    ensures var t := Perform(s, op);
      && t.disk.generation == s.disk.generation + One(Advances(s, op))
      && t.disk.processStarts == s.disk.processStarts + One(Starts(s, op))
      && (t.disk.account == Authenticated <==> s.disk.account == Authenticated && op != RequestLogout)
  {
    if op.Begin? {
      CurrentMeans(s, op.id);
    }
  }

  predicate BindsRun(s: State, op: Operation, runId: string) {
    op.Bind? && op.input.runId == runId && InContext(s.disk, op.input) && s.disk.account == Authenticated
  }

  function Replacements(ops: seq<Operation>, runId: string): nat {
    if ops == [] then 0 else Replacements(ops[..|ops|-1], runId) + One(ops[|ops|-1] == Replace(runId))
  }

  /** The run was bound before it was ever replaced. */
  predicate BoundFirst(s: State, ops: seq<Operation>, runId: string) {
    ops != [] &&
    var before := After(s, ops[..|ops|-1]);
    || BoundFirst(s, ops[..|ops|-1], runId)
    || (Replacements(ops[..|ops|-1], runId) == 0 && before.Some? && BindsRun(before.value, ops[|ops|-1], runId))
  }

  /** A run's recovery epoch counts its replacements, and one more if it was bound before the first of them; it has
      none before it is bound or replaced. */
  lemma {:induction false} EpochExactly(s: State, ops: seq<Operation>, t: State, runId: string)
    requires Initial(s) && After(s, ops) == Some(t)
    ensures var epoch := Replacements(ops, runId) + One(BoundFirst(s, ops, runId));
            && (runId in t.disk.epochs <==> epoch > 0) && (runId in t.disk.epochs ==> t.disk.epochs[runId] == epoch)
  {
    if ops != [] {
      var before := After(s, ops[..|ops|-1]).value;
      EpochExactly(s, ops[..|ops|-1], before, runId);
      EpochStep(before, ops[|ops|-1], runId);
    }
  }

  lemma EpochStep(s: State, op: Operation, runId: string)
    requires Possible(s, op)
    ensures Perform(s, op).disk.epochs.Keys ==
            s.disk.epochs.Keys + (if BindsRun(s, op, Named(op)) || op.Replace? then {Named(op)} else {})
    ensures var epochs := Perform(s, op).disk.epochs;
            var next := if op == Replace(runId) then Epoch(s.disk, runId, 0) + 1
                        else Epoch(s.disk, runId, One(BindsRun(s, op, runId)));
            runId in epochs ==> epochs[runId] == next
  {
  }

  function Named(op: Operation): string {
    if op.Bind? then op.input.runId else if op.Replace? then op.runId else ""
  }
}
