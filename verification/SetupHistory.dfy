/** What a setup's row and the claims say after any run of the store
    (workers/bun/src/harness-setup-store.ts). */
module SetupHistory {
  import opened Wrappers
  import opened CanonicalJson
  import opened SetupStore

  // ---------- the first delivery ----------

  /** A first delivery is authorized and not yet requested, has nothing else to show, and its text is the
      command's value; no other row and no response changes. */
  lemma FirstDelivery(less: Order, db: Db, c: Command, now: nat)
    requires StrictTotal(less) && Coherent(c) && c.setupId !in db.setups
    ensures var (later, r) := AcceptIn(less, db, c, now);
      && r.Success? && r.value.setupGeneration == c.setupGeneration && r.value.updatedAt == now
      && r.value.progress == Progress(Authorized, NotRequested, None, None, None)
      && Stores(r.value, c)
      && later.setups == db.setups[c.setupId := r.value] && later.responses == db.responses
  {
    DocumentDenotes(less, c);
  }

  // ---------- progress over runs ----------

  /** A transition of this setup in this generation. */
  predicate Moves(op: Operation, id: string, generation: string) {
    op.Transitioning? && op.setupId == id && op.generation == generation
  }

  datatype Column = Inspection | Attention | FailureText

  function ChangeOf(op: Operation, column: Column): Change
    requires op.Transitioning?
  {
    match column
    case Inspection => op.inspection
    case Attention => op.attentionId
    case FailureText => op.failure
  }

  function ColumnOf(p: Progress, column: Column): Option<string> {
    match column
    case Inspection => p.inspection
    case Attention => p.attentionId
    case FailureText => p.failure
  }

  /** The state of the last transition. */
  function LastState(ops: seq<Operation>, id: string, generation: string, first: SetupState): SetupState {
    if ops == [] then first
    else if Moves(ops[|ops|-1], id, generation) then ops[|ops|-1].state
    else LastState(ops[..|ops|-1], id, generation, first)
  }

  /** The last invocation state that a transition named. */
  function LastInvocation(ops: seq<Operation>, id: string, generation: string, first: InvocationState)
    : InvocationState
  {
    if ops == [] then first
    else if Moves(ops[|ops|-1], id, generation) && ops[|ops|-1].invocation.Some? then ops[|ops|-1].invocation.value
    else LastInvocation(ops[..|ops|-1], id, generation, first)
  }

  /** The last value, or null, that a transition put into the column. */
  function LastPut(ops: seq<Operation>, id: string, generation: string, column: Column, first: Option<string>)
    : Option<string>
  {
    if ops == [] then first
    else if Moves(ops[|ops|-1], id, generation) && ChangeOf(ops[|ops|-1], column).Put? then
      ChangeOf(ops[|ops|-1], column).value
    else LastPut(ops[..|ops|-1], id, generation, column, first)
  }

  predicate Follows(row: Row, ops: seq<Operation>, id: string, first: Row) {
    var generation, p := first.setupGeneration, first.progress;
    && row.progress.state == LastState(ops, id, generation, p.state)
    && row.progress.invocation == LastInvocation(ops, id, generation, p.invocation)
    && forall column :: ColumnOf(row.progress, column) == LastPut(ops, id, generation, column, ColumnOf(p, column))
  }

  lemma ProgressStep(less: Order, db: Db, op: Operation, now: nat, id: string)
    requires id in db.setups
    ensures var row, next := db.setups[id], Perform(less, db, op, now).setups;
      && id in next && next[id].setupGeneration == row.setupGeneration
      && (!Moves(op, id, row.setupGeneration) ==> next[id].progress == row.progress)
      && (Moves(op, id, row.setupGeneration) ==>
            && next[id].progress.state == op.state
            && next[id].progress.invocation ==
                 (if op.invocation.Some? then op.invocation.value else row.progress.invocation)
            && (forall column :: ColumnOf(next[id].progress, column) ==
                  if ChangeOf(op, column).Put? then ChangeOf(op, column).value else ColumnOf(row.progress, column))
            && next[id].updatedAt == now && next[id].commandJson == row.commandJson)
  {
  }

  /** Over every run, each part of a setup's progress is what was last written to it by a transition of its own
      generation, and what it was at first otherwise. */
  lemma {:induction false} ProgressFollows(less: Order, db: Db, ops: seq<Operation>, id: string)
    requires id in db.setups
    ensures id in After(less, db, ops).setups && Follows(After(less, db, ops).setups[id], ops, id, db.setups[id])
    ensures After(less, db, ops).setups[id].setupGeneration == db.setups[id].setupGeneration
  {
    if ops != [] {
      var before := After(less, db, ops[..|ops|-1]);
      ProgressFollows(less, db, ops[..|ops|-1], id);
      ProgressStep(less, before, ops[|ops|-1], |ops|, id);
    }
  }

  /** A transition succeeds exactly for a known setup in its own generation. */
  lemma TransitionsExactly(db: Db, id: string, generation: string, state: SetupState,
                           invocation: Option<InvocationState>, inspection: Change, attentionId: Change,
                           failure: Change, now: nat)
    ensures var (later, r) :=
        TransitionIn(db, id, generation, state, invocation, inspection, attentionId, failure, now);
      && (r.Success? <==> id in db.setups && db.setups[id].setupGeneration == generation)
      && (r.Failure? ==> later == db && r.error == if id in db.setups then StaleGeneration else UnknownSetup)
      && (r.Success? ==> later == db.(setups := db.setups[id := r.value]))
  {
  }

  // ---------- the stored text over runs ----------

  /** The command for the setup that was accepted last. */
  function LastAccepted(less: Order, ops: seq<Operation>, id: string): Option<Command> {
    if ops == [] then None
    else
      var before, op := ops[..|ops|-1], ops[|ops|-1];
      var db := After(less, EMPTY, before);
      if op.Accepting? && op.command.setupId == id && AcceptIn(less, db, op.command, |ops|).1.Success?
      then Some(op.command)
      else LastAccepted(less, before, id)
  }

  predicate CommandsValid(ops: seq<Operation>) {
    forall k :: 0 <= k < |ops| && ops[k].Accepting? ==> Valid(Obj(ops[k].command.fields))
  }

  /** Over every run from the empty store, a row is there exactly if a command for it was accepted, and its text is
      the value of the one accepted last. */
  lemma {:induction false} TextFollows(less: Order, ops: seq<Operation>, id: string)
    requires StrictTotal(less) && CommandsValid(ops)
    ensures var setups, last := After(less, EMPTY, ops).setups, LastAccepted(less, ops, id);
      && (id in setups <==> last.Some?)
      && (last.Some? ==> Stores(setups[id], last.value) && Valid(Obj(last.value.fields)))
  {
    if ops != [] {
      var before, op := ops[..|ops|-1], ops[|ops|-1];
      TextFollows(less, before, id);
      if op.Accepting? {
        DocumentDenotes(less, op.command);
      }
    }
  }

  // ---------- claims over runs ----------

  /** What a claim is answered, in every run: it is granted exactly if the setup is known in this generation and
      neither its request nor its attention was granted before in it; the pair that was granted is recognised. */
  lemma ClaimsExactly(less: Order, ops: seq<Operation>, key: RequestKey, attentionId: string)
    ensures var db := After(less, EMPTY, ops);
      var r := ClaimIn(db, key.setupId, key.setupGeneration, key.requestId, attentionId).1;
      var known := key.setupId in db.setups && db.setups[key.setupId].setupGeneration == key.setupGeneration;
      && (r == Success(true) <==> known && !RequestTaken(less, ops, key) && !Attended(less, ops, key, attentionId))
      && (r == Success(false) <==> known && Granted(less, ops, key, attentionId))
      && (!known ==> r == Failure(if key.setupId in db.setups then StaleGeneration else UnknownSetup))
  {
    var db := After(less, EMPTY, ops);
    forall k: RequestKey, a: string {
      RecordedExactly(less, ops, k, a);
    }
    if key in db.responses {
      assert Granted(less, ops, key, db.responses[key]);
    }
    if AttentionTaken(db, key.setupId, key.setupGeneration, attentionId) {
      var k :| k in db.responses && k.setupId == key.setupId && k.setupGeneration == key.setupGeneration
               && db.responses[k] == attentionId;
      assert Granted(less, ops, RequestKey(key.setupId, key.setupGeneration, k.requestId), attentionId);
    }
  }

  /** The request was granted some attention. */
  ghost predicate RequestTaken(less: Order, ops: seq<Operation>, key: RequestKey) {
    exists a :: Granted(less, ops, key, a)
  }

  /** Some request of the generation was granted the attention. */
  ghost predicate Attended(less: Order, ops: seq<Operation>, key: RequestKey, attentionId: string) {
    exists requestId :: Granted(less, ops, RequestKey(key.setupId, key.setupGeneration, requestId), attentionId)
  }
}
