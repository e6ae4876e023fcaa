/** The provider account cell and its promise-chain lock (spikes/provider-credential-context/proof.ts).
    A call of `exclusive` is a record; its position names the promise that its `finally` resolves. */
module AccountCell {
  import opened Wrappers

  datatype Reference = Reference(providerAccountId: string, provider: string, harness: string, workerId: string,
                                 generation: nat, incarnation: string, policy: string)

  datatype CellDisk = CellDisk(providerAccountId: string, workerId: string, incarnation: string, generation: nat,
                               authenticated: bool, authMethod: string, credentialBytes: string,
                               revision: nat, mutationLog: seq<string>)

  datatype Kind = Use(reference: Reference) | Replace(bytes: string) | Disconnect

  /** A queued call awaits its predecessor; inside, it runs its operation (or has already thrown,
      when it was not admitted); finished, it has released its successor. */
  datatype Phase = Queued | Inside(admitted: bool) | Finished(admitted: bool)

  datatype Call = Call(kind: Kind, predecessor: Option<nat>, phase: Phase)

  datatype State = State(disk: CellDisk, calls: seq<Call>, lockTail: Option<nat>)

  const PROVIDER := "anthropic"
  const HARNESS := "claude_code_mod"
  const POLICY := "claude-subscription-explicit-environment-v2"

  // ---------- the operations as functions ----------

  function ReferenceTo(d: CellDisk): Reference {
    Reference(d.providerAccountId, PROVIDER, HARNESS, d.workerId, d.generation, d.incarnation, POLICY)
  }

  /** The checks at the start of an admitted use. */
  predicate Admits(d: CellDisk, r: Reference) {
    && r.providerAccountId == d.providerAccountId && r.provider == PROVIDER && r.harness == HARNESS
    && r.workerId == d.workerId && r.generation == d.generation && r.incarnation == d.incarnation && r.policy == POLICY
    && d.authenticated && d.authMethod == "claude.ai"
  }

  function Initial(providerAccountId: string, workerId: string, incarnation: string, bytes: string): State {
    State(CellDisk(providerAccountId, workerId, incarnation, 1, true, "claude.ai", bytes, 0, []), [], None)
  }

  function CallIn(s: State, kind: Kind): State {
    s.(calls := s.calls + [Call(kind, s.lockTail, Queued)], lockTail := Some(|s.calls|))
  }

  predicate Resolved(s: State, promise: Option<nat>) {
    promise.None? || (promise.value < |s.calls| && s.calls[promise.value].phase.Finished?)
  }

  predicate CanEnter(s: State, i: nat) {
    i < |s.calls| && s.calls[i].phase.Queued? && Resolved(s, s.calls[i].predecessor)
  }

  function Swap(d: CellDisk, kind: Kind): CellDisk
    requires !kind.Use?
  {
    if kind.Replace? then
      d.(credentialBytes := kind.bytes, revision := d.revision + 1, generation := d.generation + 1,
         authenticated := true, authMethod := "claude.ai", mutationLog := d.mutationLog + ["replace-account"])
    else
      d.(credentialBytes := "", revision := d.revision + 1, generation := d.generation + 1,
         authenticated := false, authMethod := "none", mutationLog := d.mutationLog + ["disconnect"])
  }

  /** The section opens: a replacement or disconnection takes effect at once, a use is checked. */
  function EnterIn(s: State, i: nat): State
    requires CanEnter(s, i)
  {
    var kind := s.calls[i].kind;
    var admitted := !kind.Use? || Admits(s.disk, kind.reference);
    s.(calls := s.calls[i := s.calls[i].(phase := Inside(admitted))],
       disk := if kind.Use? then s.disk else Swap(s.disk, kind))
  }

  predicate IsLabel(name: string) {
    1 <= |name| <= 64 && forall i :: 0 <= i < |name| ==>
      'a' <= name[i] <= 'z' || '0' <= name[i] <= '9' || name[i] == '-'
  }

  predicate HasProvider(s: State, i: nat) {
    i < |s.calls| && s.calls[i].kind.Use? && (s.calls[i].phase == Inside(true) || s.calls[i].phase == Finished(true))
  }

  /** An operation calls refresh on the provider it was handed. */
  function RefreshIn(s: State, i: nat, name: string): State
    requires HasProvider(s, i)
  {
    if !IsLabel(name) then s
    else s.(disk := s.disk.(credentialBytes := s.disk.credentialBytes + ":" + name,
                            revision := s.disk.revision + 1, mutationLog := s.disk.mutationLog + [name]))
  }

  predicate CanFinish(s: State, i: nat) {
    i < |s.calls| && s.calls[i].phase.Inside?
  }

  /** The operation returned or threw; `finally` releases the successor either way. */
  function FinishIn(s: State, i: nat): State
    requires CanFinish(s, i)
  {
    s.(calls := s.calls[i := s.calls[i].(phase := Finished(s.calls[i].phase.admitted))])
  }

  // ---------- the object ----------

  class FakeProviderAccountCell {
    const providerAccountId: string
    const workerId: string
    const incarnation: string
    var generation: nat
    var authenticated: bool
    var authMethod: string
    var credentialBytes: string
    var revision: nat
    var mutationLog: seq<string>
    var calls: seq<Call>
    var lockTail: Option<nat>

    function Snapshot(): State
      reads this
    {
      State(CellDisk(providerAccountId, workerId, incarnation, generation, authenticated, authMethod,
                     credentialBytes, revision, mutationLog), calls, lockTail)
    }

    constructor Authenticated(providerAccountId: string, workerId: string, incarnation: string, bytes: string)
      ensures Snapshot() == Initial(providerAccountId, workerId, incarnation, bytes)
    {
      this.providerAccountId, this.workerId, this.incarnation := providerAccountId, workerId, incarnation;
      generation, authenticated, authMethod := 1, true, "claude.ai";
      credentialBytes, revision, mutationLog := bytes, 0, [];
      calls, lockTail := [], None;
    }

    /** The synchronous part of `exclusive`: remember the predecessor, become the tail. */
    method Exclusive(kind: Kind) returns (call: nat)
      modifies this
      ensures Snapshot() == CallIn(old(Snapshot()), kind) && call == |old(calls)|
    {
      var predecessor := lockTail;
      call := |calls|;
      lockTail := Some(call);
      calls := calls + [Call(kind, predecessor, Queued)];
    }

    method Enter(i: nat)
      requires CanEnter(Snapshot(), i)
      modifies this
      ensures Snapshot() == EnterIn(old(Snapshot()), i)
    {
      var kind := calls[i].kind;
      var admitted := true;
      match kind {
        case Use(reference) =>
          admitted := Admits(Snapshot().disk, reference);
        case Replace(bytes) =>
          credentialBytes := bytes;
          revision := revision + 1;
          generation := generation + 1;
          authenticated := true;
          authMethod := "claude.ai";
          mutationLog := mutationLog + ["replace-account"];
        case Disconnect =>
          credentialBytes := "";
          revision := revision + 1;
          generation := generation + 1;
          authenticated := false;
          authMethod := "none";
          mutationLog := mutationLog + ["disconnect"];
      }
      calls := calls[i := calls[i].(phase := Inside(admitted))];
    }

    method Refresh(i: nat, name: string) returns (ok: bool)
      requires HasProvider(Snapshot(), i)
      modifies this
      ensures Snapshot() == RefreshIn(old(Snapshot()), i, name) && ok == IsLabel(name)
    {
      if !IsLabel(name) { return false; }
      credentialBytes := credentialBytes + ":" + name;
      revision := revision + 1;
      mutationLog := mutationLog + [name];
      return true;
    }

    method Finish(i: nat)
      requires CanFinish(Snapshot(), i)
      modifies this
      ensures Snapshot() == FinishIn(old(Snapshot()), i)
    {
      calls := calls[i := calls[i].(phase := Finished(calls[i].phase.admitted))];
    }
  }

  // ---------- runs ----------

  datatype Step =
    | Calling(kind: Kind)
    | Entering(call: nat)
    | Refreshing(call: nat, name: string)
    | Finishing(call: nat)

  predicate Possible(s: State, step: Step) {
    match step
    case Calling(_) => true
    case Entering(i) => CanEnter(s, i)
    case Refreshing(i, _) => HasProvider(s, i)
    case Finishing(i) => CanFinish(s, i)
  }

  function Perform(s: State, step: Step): State
    requires Possible(s, step)
  {
    match step
    case Calling(kind) => CallIn(s, kind)
    case Entering(i) => EnterIn(s, i)
    case Refreshing(i, name) => RefreshIn(s, i, name)
    case Finishing(i) => FinishIn(s, i)
  }

  function After(s: State, steps: seq<Step>): Option<State> {
    if steps == [] then Some(s)
    else
      var before, step := After(s, steps[..|steps|-1]), steps[|steps|-1];
      if before.Some? && Possible(before.value, step) then Some(Perform(before.value, step)) else None
  }

  predicate Fresh(s: State) {
    s == Initial(s.disk.providerAccountId, s.disk.workerId, s.disk.incarnation, s.disk.credentialBytes)
  }

  /** The first call that has not finished, or the number of calls. */
  function Turn(s: State): (k: nat)
    ensures k <= |s.calls|
    ensures forall i :: 0 <= i < k ==> s.calls[i].phase.Finished?
    ensures k < |s.calls| ==> !s.calls[k].phase.Finished?
  {
    TurnFrom(s, 0)
  }

  function TurnFrom(s: State, i: nat): (k: nat)
    requires i <= |s.calls| && forall j :: 0 <= j < i ==> s.calls[j].phase.Finished?
    ensures k <= |s.calls|
    ensures forall j :: 0 <= j < k ==> s.calls[j].phase.Finished?
    ensures k < |s.calls| ==> !s.calls[k].phase.Finished?
    decreases |s.calls| - i
  {
    if i < |s.calls| && s.calls[i].phase.Finished? then TurnFrom(s, i + 1) else i
  }

  predicate Chained(s: State) {
    && s.lockTail == (if s.calls == [] then None else Some(|s.calls| - 1))
    && (forall i :: 0 <= i < |s.calls| ==> s.calls[i].predecessor == if i == 0 then None else Some(i - 1))
    && (forall i :: 0 <= i < |s.calls| - 1 && !s.calls[i].phase.Finished? ==> s.calls[i+1].phase.Queued?)
  }

  predicate Inv(s: State) {
    Chained(s) && s.disk.revision == |s.disk.mutationLog|
  }

  lemma InvStep(s: State, step: Step)
    requires Inv(s) && Possible(s, step)
    ensures Inv(Perform(s, step))
  {
  }

  lemma {:induction false} Invariant(s: State, steps: seq<Step>, t: State)
    requires Fresh(s) && After(s, steps) == Some(t)
    ensures Inv(t)
  {
    if steps != [] {
      var before := After(s, steps[..|steps|-1]).value;
      Invariant(s, steps[..|steps|-1], before);
      InvStep(before, steps[|steps|-1]);
    }
  }

  lemma {:induction false} QueuedBehind(s: State, k: nat, i: nat)
    requires Chained(s) && k < i < |s.calls| && !s.calls[k].phase.Finished?
    ensures s.calls[i].phase.Queued?
    decreases i
  {
    if k < i - 1 {
      QueuedBehind(s, k, i - 1);
    }
  }

  /** Mutual exclusion in call order: every call before the turn has finished, every call after it is
      queued; and the lock never sticks, since the call whose turn it is can always enter or finish. */
  lemma LockIsFair(s: State, steps: seq<Step>, t: State)
    requires Fresh(s) && After(s, steps) == Some(t)
    ensures var k := Turn(t);
            && (forall i :: 0 <= i < k ==> t.calls[i].phase.Finished?)
            && (forall i :: k < i < |t.calls| ==> t.calls[i].phase.Queued?)
            && (forall i: nat :: CanEnter(t, i) ==> i == k)
            && (forall i: nat :: CanFinish(t, i) ==> i == k)
            && (k < |t.calls| ==> CanEnter(t, k) || CanFinish(t, k))
            && (CanFinish(t, k) && k + 1 < |t.calls| ==> CanEnter(FinishIn(t, k), k + 1))
    ensures t.disk.revision == |t.disk.mutationLog|
  {
    Invariant(s, steps, t);
    var k := Turn(t);
    forall i | k < i < |t.calls| ensures t.calls[i].phase.Queued? {
      QueuedBehind(t, k, i);
    }
  }

  // ---------- stale references ----------

  predicate EnteredSwap(s: State, i: nat) {
    i < |s.calls| && !s.calls[i].kind.Use? && !s.calls[i].phase.Queued?
  }

  /** No account replacement or disconnection entered its section between s and t. */
  predicate NoSwapBetween(s: State, t: State) {
    forall i: nat | i < |t.calls| :: EnteredSwap(t, i) ==> EnteredSwap(s, i)
  }

  predicate SameAccount(d: CellDisk, e: CellDisk) {
    d.providerAccountId == e.providerAccountId && d.workerId == e.workerId && d.incarnation == e.incarnation
  }

  lemma {:induction false} SwapsAdvance(s: State, steps: seq<Step>, t: State)
    requires After(s, steps) == Some(t)
    ensures SameAccount(s.disk, t.disk) && s.disk.generation <= t.disk.generation && |s.calls| <= |t.calls|
    ensures forall i: nat :: EnteredSwap(s, i) ==> EnteredSwap(t, i)
    ensures s.disk.generation == t.disk.generation <==> NoSwapBetween(s, t)
    ensures NoSwapBetween(s, t) ==>
              t.disk.authenticated == s.disk.authenticated && t.disk.authMethod == s.disk.authMethod
  {
    if steps != [] {
      var u, step := After(s, steps[..|steps|-1]).value, steps[|steps|-1];
      SwapsAdvance(s, steps[..|steps|-1], u);
      if step.Entering? && !u.calls[step.call].kind.Use? {
        assert EnteredSwap(t, step.call) && !EnteredSwap(u, step.call);
      } else {
        assert forall i: nat :: i < |t.calls| && EnteredSwap(t, i) ==> EnteredSwap(u, i);
        assert forall i: nat :: EnteredSwap(u, i) ==> i < |t.calls| && EnteredSwap(t, i);
      }
    }
  }

  /** A use is admitted exactly when the account was ready when its reference was taken and no
      replacement or disconnection ran its section between then and the use's own entry. */
  lemma AdmittedExactly(taken: State, steps: seq<Step>, t: State, i: nat)
    requires After(taken, steps) == Some(t) && CanEnter(t, i)
    requires t.calls[i].kind == Use(ReferenceTo(taken.disk))
    ensures EnterIn(t, i).calls[i].phase.admitted <==>
            NoSwapBetween(taken, t) && taken.disk.authenticated && taken.disk.authMethod == "claude.ai"
  {
    SwapsAdvance(taken, steps, t);
  }

  /** A step of the call whose turn it is. */
  predicate InTurn(s: State, step: Step) {
    match step
    case Entering(i) => i == Turn(s)
    case Refreshing(i, _) => i == Turn(s)
    case _ => false
  }

  /** The credential changes outside the turn exactly when a provider that a finished, admitted use has
      kept refreshes it under a valid label. */
  lemma OnlyTheHolderMutates(s: State, steps: seq<Step>, t: State, step: Step)
    requires Fresh(s) && After(s, steps) == Some(t) && Possible(t, step)
    ensures Perform(t, step).disk != t.disk && !InTurn(t, step) <==>
            step.Refreshing? && IsLabel(step.name) && t.calls[step.call].phase == Finished(true)
    ensures step.Refreshing? ==> (InTurn(t, step) <==> !t.calls[step.call].phase.Finished?)
    ensures step.Refreshing? ==>
              t.calls[step.call].kind.Use? && t.calls[step.call].phase in {Inside(true), Finished(true)}
  {
    LockIsFair(s, steps, t);
    if step.Refreshing? && IsLabel(step.name) {
      assert Perform(t, step).disk.revision == t.disk.revision + 1;
    }
  }

  /** A run in which a kept provider writes to the disconnected account's cell. */
  lemma KeptProviderOutlivesDisconnect(s: State)
    requires Fresh(s)
    ensures var steps := [Calling(Use(ReferenceTo(s.disk))), Entering(0), Finishing(0),
                          Calling(Disconnect), Entering(1), Finishing(1), Refreshing(0, "a")];
            && After(s, steps).Some?
            && !After(s, steps).value.disk.authenticated
            && After(s, steps).value.disk.credentialBytes == ":a"
  {
    var steps := [Calling(Use(ReferenceTo(s.disk))), Entering(0), Finishing(0),
                  Calling(Disconnect), Entering(1), Finishing(1), Refreshing(0, "a")];
    UsedOnce(s, steps);
    var used := After(s, steps[..3]).value;
    var disconnecting := CallIn(used, Disconnect);
    var disconnected := FinishIn(EnterIn(disconnecting, 1), 1);
    AfterOne(s, steps, used, 3);
    AfterOne(s, steps, disconnecting, 4);
    AfterOne(s, steps, EnterIn(disconnecting, 1), 5);
    assert HasProvider(disconnected, 0);
    AfterOne(s, steps, disconnected, 6);
    assert steps[..7] == steps;
  }

  /** The first call has been admitted and has finished. */
  lemma UsedOnce(s: State, steps: seq<Step>)
    requires Fresh(s) && |steps| >= 3
    requires steps[0] == Calling(Use(ReferenceTo(s.disk))) && steps[1] == Entering(0) && steps[2] == Finishing(0)
    ensures After(s, steps[..3]) ==
            Some(State(s.disk, [Call(Use(ReferenceTo(s.disk)), None, Finished(true))], Some(0)))
  {
    var called := CallIn(s, Use(ReferenceTo(s.disk)));
    AfterOne(s, steps, s, 0);
    AfterOne(s, steps, called, 1);
    AfterOne(s, steps, EnterIn(called, 0), 2);
    assert called.calls == [Call(Use(ReferenceTo(s.disk)), None, Queued)];
    assert FinishIn(EnterIn(called, 0), 0).calls == [Call(Use(ReferenceTo(s.disk)), None, Finished(true))];
  }

  lemma AfterOne(s: State, steps: seq<Step>, before: State, n: nat)
    requires n < |steps| && After(s, steps[..n]) == Some(before) && Possible(before, steps[n])
    ensures After(s, steps[..n + 1]) == Some(Perform(before, steps[n]))
  {
    assert steps[..n + 1][..n] == steps[..n];
  }
}
