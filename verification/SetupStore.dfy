/** Durable harness setups (workers/bun/src/harness-setup-store.ts). The two tables are maps; the
    digest is taken to be injective, and a document's canonical text stands for its digest. */
module SetupStore {
  import opened Wrappers
  import opened CanonicalJson
  import CanonicalIdentity
  import JsonReading

  // ---------- commands ----------

  /** A prepare command: the whole document, and the two identity fields read from it. */
  datatype Command = Command(setupId: string, setupGeneration: string, fields: seq<Field>)

  function Lookup(fields: seq<Field>, key: string): Option<Json> {
    if fields == [] then None
    else if fields[0].key == key then Some(fields[0].value)
    else Lookup(fields[1..], key)
  }

  predicate Coherent(c: Command) {
    && Valid(Obj(c.fields))
    && var setup := Lookup(c.fields, "setup");
       && setup.Some? && setup.value.Obj?
       && Lookup(setup.value.fields, "setup_id") == Some(Str(c.setupId))
       && Lookup(setup.value.fields, "setup_generation") == Some(Number(c.setupGeneration))
  }

  /** {...object, key: value} */
  function SetField(fields: seq<Field>, key: string, value: Json): seq<Field> {
    if fields == [] then [Field(key, value)]
    else if fields[0].key == key then [Field(key, value)] + fields[1..]
    else [fields[0]] + SetField(fields[1..], key, value)
  }

  const CONNECTION := "connection_generation"

  function Document(less: Order, c: Command): string {
    Canonical(less, Obj(c.fields))
  }

  function Digest(less: Order, c: Command): string {
    Canonical(less, Obj(SetField(c.fields, CONNECTION, Number("0"))))
  }

  /** The same command, apart from key order and the connection it came over. */
  predicate SameCommand(c: Command, d: Command) {
    MeaningFields(c.fields) - {CONNECTION} == MeaningFields(d.fields) - {CONNECTION}
  }

  lemma {:induction false} SetFieldKeys(fields: seq<Field>, key: string, value: Json)
    requires DistinctKeys(fields)
    ensures var r := SetField(fields, key, value);
            && DistinctKeys(r)
            && (forall i :: 0 <= i < |r| ==> r[i].key == key || CanonicalIdentity.HasKey(fields, r[i].key))
    decreases |fields|
  {
    if fields != [] {
      var r := SetField(fields, key, value);
      if fields[0].key == key {
        forall i | 0 < i < |r| ensures CanonicalIdentity.HasKey(fields, r[i].key) { assert r[i] == fields[i]; }
      } else {
        var s := SetField(fields[1..], key, value);
        SetFieldKeys(fields[1..], key, value);
        forall i | 0 <= i < |s| && s[i].key != key
          ensures s[i].key != fields[0].key && CanonicalIdentity.HasKey(fields, s[i].key)
        {
          var j :| 0 <= j < |fields| - 1 && fields[1..][j].key == s[i].key;
          assert fields[j+1].key == s[i].key;
        }
        assert CanonicalIdentity.HasKey(fields, fields[0].key);
      }
    }
  }

  lemma {:induction false} SetFieldMeaning(fields: seq<Field>, key: string, value: Json)
    requires ValidFields(fields) && Valid(value)
    ensures var r := SetField(fields, key, value);
            ValidFields(r) && MeaningFields(r) == MeaningFields(fields)[key := Meaning(value)]
    decreases |fields|
  {
    if fields != [] {
      var r := SetField(fields, key, value);
      if fields[0].key == key {
        assert r[1..] == fields[1..];
      } else {
        SetFieldMeaning(fields[1..], key, value);
        assert r[1..] == SetField(fields[1..], key, value);
      }
    }
  }

  /** Digests agree exactly when the commands do, apart from key order and connection generation. */
  lemma DigestExactly(less: Order, c: Command, d: Command)
    requires StrictTotal(less) && Coherent(c) && Coherent(d)
    ensures Digest(less, c) == Digest(less, d) <==> SameCommand(c, d)
  {
    SetFieldKeys(c.fields, CONNECTION, Number("0"));
    SetFieldKeys(d.fields, CONNECTION, Number("0"));
    SetFieldMeaning(c.fields, CONNECTION, Number("0"));
    SetFieldMeaning(d.fields, CONNECTION, Number("0"));
    var x, y := Obj(SetField(c.fields, CONNECTION, Number("0"))), Obj(SetField(d.fields, CONNECTION, Number("0")));
    CanonicalIdentity.CanonicalExactly(less, x, y);
    OverrideAgrees(MeaningFields(c.fields), MeaningFields(d.fields), CONNECTION, Meaning(Number("0")));
  }

  lemma OverrideAgrees(m: map<string, Value>, n: map<string, Value>, k: string, z: Value)
    ensures m[k := z] == n[k := z] <==> m - {k} == n - {k}
  {
    assert m[k := z] - {k} == m - {k} && n[k := z] - {k} == n - {k};
    assert m[k := z] == (m - {k})[k := z] && n[k := z] == (n - {k})[k := z];
  }

  // ---------- the tables ----------

  datatype SetupState =
    | Authorized | Preparing | InvocationRequested | InvocationAcknowledged | HumanInteractionRequired
    | CancellationRequested | Ready | SetupFailed | Uncertain | Cancelled | Invalidated

  datatype InvocationState = NotRequested | Requested | Acknowledged | Settled | InvocationUncertain

  /** What a setup has come to; a redelivery leaves it alone. */
  datatype Progress = Progress(state: SetupState, invocation: InvocationState, inspection: Option<string>,
                               attentionId: Option<string>, failure: Option<string>)

  const FRESH := Progress(Authorized, NotRequested, None, None, None)

  datatype Row = Row(setupGeneration: string, commandJson: string, commandHash: string, progress: Progress,
                     updatedAt: nat)

  datatype RequestKey = RequestKey(setupId: string, setupGeneration: string, requestId: string)

  datatype Db = Db(setups: map<string, Row>, responses: map<RequestKey, string>)

  datatype StoreError = IdentityConflict | UnknownSetup | StaleGeneration | ResponseConflict

  /** An optional member of the transition input: absent, or present with a value or null. */
  datatype Change = Keep | Put(value: Option<string>) {
    function On(current: Option<string>): Option<string> {
      if Keep? then current else value
    }
  }

  // ---------- the operations as functions ----------

  function AcceptIn(less: Order, db: Db, c: Command, now: nat): (Db, Result<Row, StoreError>) {
    if c.setupId in db.setups then
      var row := db.setups[c.setupId];
      if row.setupGeneration != c.setupGeneration || row.commandHash != Digest(less, c) then
        (db, Failure(IdentityConflict))
      else
        var updated := if row.commandJson == Document(less, c) then row
                       else row.(commandJson := Document(less, c), updatedAt := now);
        (db.(setups := db.setups[c.setupId := updated]), Success(updated))
    else
      var row := Row(c.setupGeneration, Document(less, c), Digest(less, c), FRESH, now);
      (db.(setups := db.setups[c.setupId := row]), Success(row))
  }

  function TransitionIn(db: Db, setupId: string, generation: string, state: SetupState,
                        invocation: Option<InvocationState>,
                        inspection: Change, attentionId: Change, failure: Change, now: nat)
    : (Db, Result<Row, StoreError>)
  {
    if setupId !in db.setups then (db, Failure(UnknownSetup))
    else if db.setups[setupId].setupGeneration != generation then (db, Failure(StaleGeneration))
    else
      var row := db.setups[setupId];
      var p := row.progress;
      var progress := Progress(state, if invocation.Some? then invocation.value else p.invocation,
                               inspection.On(p.inspection), attentionId.On(p.attentionId), failure.On(p.failure));
      var updated := row.(progress := progress, updatedAt := now);
      (db.(setups := db.setups[setupId := updated]), Success(updated))
  }

  predicate AttentionTaken(db: Db, setupId: string, generation: string, attentionId: string) {
    exists k :: k in db.responses && k.setupId == setupId && k.setupGeneration == generation
        && db.responses[k] == attentionId
  }

  function ClaimIn(db: Db, setupId: string, generation: string, requestId: string, attentionId: string)
    : (Db, Result<bool, StoreError>)
  {
    var key := RequestKey(setupId, generation, requestId);
    if setupId !in db.setups then (db, Failure(UnknownSetup))
    else if db.setups[setupId].setupGeneration != generation then (db, Failure(StaleGeneration))
    else if key in db.responses && db.responses[key] == attentionId then (db, Success(false))
    else if key in db.responses || AttentionTaken(db, setupId, generation, attentionId) then
      (db, Failure(ResponseConflict))
    else (db.(responses := db.responses[key := attentionId]), Success(true))
  }

  function ClaimedIn(db: Db, key: RequestKey, attentionId: string): Result<bool, StoreError> {
    if key !in db.responses then Success(false)
    else if db.responses[key] != attentionId then Failure(ResponseConflict)
    else Success(true)
  }

  // ---------- the store ----------

  class HarnessSetupStore {
    const less: Order
    var setups: map<string, Row>
    var responses: map<RequestKey, string>

    function Contents(): Db
      reads this
    {
      Db(setups, responses)
    }

    constructor (less: Order)
      ensures this.less == less && Contents() == Db(map[], map[])
    {
      this.less := less;
      setups, responses := map[], map[];
    }

    method Accept(c: Command, now: nat) returns (r: Result<Row, StoreError>)
      modifies this
      ensures (Contents(), r) == AcceptIn(less, old(Contents()), c, now)
    {
      var json := Document(less, c);
      var hash := Digest(less, c);
      if c.setupId in setups {
        var row := setups[c.setupId];
        if row.setupGeneration != c.setupGeneration || row.commandHash != hash { return Failure(IdentityConflict); }
        if row.commandJson != json {
          row := row.(commandJson := json, updatedAt := now);
        }
        setups := setups[c.setupId := row];
        return Success(row);
      }
      setups := setups[c.setupId := Row(c.setupGeneration, json, hash, FRESH, now)];
      return Success(setups[c.setupId]);
    }

    method Transition(setupId: string, generation: string, state: SetupState, invocation: Option<InvocationState>,
                      inspection: Change, attentionId: Change, failure: Change, now: nat)
      returns (r: Result<Row, StoreError>)
      modifies this
      ensures (Contents(), r) == TransitionIn(old(Contents()), setupId, generation, state, invocation, inspection,
                                              attentionId, failure, now)
    {
      if setupId !in setups { return Failure(UnknownSetup); }
      var row := setups[setupId];
      if row.setupGeneration != generation { return Failure(StaleGeneration); }
      var p := row.progress;
      var invocationState := if invocation.Some? then invocation.value else p.invocation;
      row := row.(progress := Progress(state, invocationState, inspection.On(p.inspection),
                                       attentionId.On(p.attentionId), failure.On(p.failure)), updatedAt := now);
      setups := setups[setupId := row];
      return Success(row);
    }

    method ClaimResponse(setupId: string, generation: string, requestId: string, attentionId: string)
      returns (r: Result<bool, StoreError>)
      modifies this
      ensures (Contents(), r) == ClaimIn(old(Contents()), setupId, generation, requestId, attentionId)
    {
      if setupId !in setups { return Failure(UnknownSetup); }
      if setups[setupId].setupGeneration != generation { return Failure(StaleGeneration); }
      var key := RequestKey(setupId, generation, requestId);
      if key in responses && responses[key] == attentionId { return Success(false); }
      if key in responses || AttentionTaken(Contents(), setupId, generation, attentionId) {
        return Failure(ResponseConflict);
      }
      responses := responses[key := attentionId];
      return Success(true);
    }

    method ResponseClaimed(setupId: string, generation: string, requestId: string, attentionId: string)
      returns (r: Result<bool, StoreError>)
      ensures r == ClaimedIn(Contents(), RequestKey(setupId, generation, requestId), attentionId)
    {
      var key := RequestKey(setupId, generation, requestId);
      if key !in responses { return Success(false); }
      if responses[key] != attentionId { return Failure(ResponseConflict); }
      return Success(true);
    }
  }

  // ---------- over every run ----------

  datatype Operation =
    | Accepting(command: Command)
    | Transitioning(setupId: string, generation: string, state: SetupState, invocation: Option<InvocationState>,
                    inspection: Change, attentionId: Change, failure: Change)
    | Claiming(setupId: string, generation: string, requestId: string, attention: string)

  function Perform(less: Order, db: Db, op: Operation, now: nat): Db {
    match op
    case Accepting(c) => AcceptIn(less, db, c, now).0
    case Transitioning(id, g, s, i, x, a, f) => TransitionIn(db, id, g, s, i, x, a, f, now).0
    case Claiming(id, g, r, a) => ClaimIn(db, id, g, r, a).0
  }

  function After(less: Order, db: Db, ops: seq<Operation>): Db {
    if ops == [] then db else Perform(less, After(less, db, ops[..|ops|-1]), ops[|ops|-1], |ops|)
  }

  predicate SameIdentity(a: Row, b: Row) {
    a.setupGeneration == b.setupGeneration && a.commandHash == b.commandHash
  }

  /** A setup's identity never changes, and a recorded response is never changed or removed. */
  lemma {:induction false} IdentityPersists(less: Order, db: Db, ops: seq<Operation>)
    ensures var later := After(less, db, ops);
            && (forall id :: id in db.setups ==> id in later.setups && SameIdentity(later.setups[id], db.setups[id]))
            && (forall k :: k in db.responses ==> k in later.responses && later.responses[k] == db.responses[k])
  {
    if ops != [] {
      IdentityPersists(less, db, ops[..|ops|-1]);
    }
  }

  lemma {:induction false} LookupMeaning(fields: seq<Field>, key: string)
    requires DistinctKeys(fields)
    ensures Lookup(fields, key).Some? <==> key in MeaningFields(fields)
    ensures Lookup(fields, key).Some? ==> MeaningFields(fields)[key] == Meaning(Lookup(fields, key).value)
    decreases |fields|
  {
    if fields != [] {
      LookupMeaning(fields[1..], key);
    }
  }

  lemma ValidLookup(fields: seq<Field>, key: string)
    requires ValidFields(fields) && Lookup(fields, key).Some?
    ensures Valid(Lookup(fields, key).value)
    decreases |fields|
  {
    if fields[0].key != key {
      ValidLookup(fields[1..], key);
    }
  }

  lemma SameCommandSameGeneration(c: Command, d: Command)
    requires Coherent(c) && Coherent(d) && SameCommand(c, d)
    ensures c.setupGeneration == d.setupGeneration && c.setupId == d.setupId
  {
    LookupMeaning(c.fields, "setup");
    LookupMeaning(d.fields, "setup");
    ValidLookup(c.fields, "setup");
    ValidLookup(d.fields, "setup");
    var x, y := Lookup(c.fields, "setup").value.fields, Lookup(d.fields, "setup").value.fields;
    var m, n := MeaningFields(c.fields), MeaningFields(d.fields);
    assert "setup" in m - {CONNECTION} && "setup" in n - {CONNECTION};
    assert m["setup"] == (m - {CONNECTION})["setup"] == n["setup"];
    assert MeaningFields(x) == MeaningFields(y);
    LookupMeaning(x, "setup_generation");
    LookupMeaning(y, "setup_generation");
    LookupMeaning(x, "setup_id");
    LookupMeaning(y, "setup_id");
  }

  /** The stored text, read by the grammar of JSON, is a document of the command's value. */
  ghost predicate Stores(row: Row, c: Command) {
    JsonReading.Denotes(row.commandJson, VObj(MeaningFields(c.fields)))
  }

  lemma DocumentDenotes(less: Order, c: Command)
    requires StrictTotal(less) && Valid(Obj(c.fields))
    ensures JsonReading.Denotes(Document(less, c), VObj(MeaningFields(c.fields)))
  {
    JsonReading.CanonicalDenotes(less, Obj(c.fields));
  }

  /** After a command is first accepted, and whatever happens then, a command for the same setup is
      accepted exactly when it is the same command; accepting it stores its value and leaves all progress alone. */
  lemma RedeliveryExactly(less: Order, db: Db, first: Command, again: Command, at: nat, ops: seq<Operation>, now: nat)
    requires StrictTotal(less) && Coherent(first) && Coherent(again)
    requires first.setupId !in db.setups && again.setupId == first.setupId
    ensures var mid := After(less, AcceptIn(less, db, first, at).0, ops);
            var (later, r) := AcceptIn(less, mid, again, now);
            && (r.Success? <==> SameCommand(first, again))
            && (r.Failure? ==> r.error == IdentityConflict && later == mid)
            && (r.Success? ==> first.setupId in mid.setups && r.value.progress == mid.setups[first.setupId].progress
                               && r.value.commandJson == Document(less, again) && Stores(r.value, again)
                               && later == mid.(setups := mid.setups[first.setupId := r.value]))
  {
    IdentityPersists(less, AcceptIn(less, db, first, at).0, ops);
    DigestExactly(less, first, again);
    DocumentDenotes(less, again);
    if SameCommand(first, again) {
      SameCommandSameGeneration(first, again);
    }
  }

  // ---------- responses ----------

  /** Within one setup generation no two requests share an attention. */
  predicate OneToOne(db: Db) {
    forall k, l | k in db.responses && l in db.responses ::
      k.setupId == l.setupId && k.setupGeneration == l.setupGeneration && db.responses[k] == db.responses[l] ==> k == l
  }

  lemma {:induction false} ResponsesStayOneToOne(less: Order, db: Db, ops: seq<Operation>)
    requires OneToOne(db)
    ensures OneToOne(After(less, db, ops))
  {
    if ops != [] {
      ResponsesStayOneToOne(less, db, ops[..|ops|-1]);
    }
  }

  /** A claim that was granted is never granted again, whatever happens in between: the same pair is
      then recognised, and a pair sharing only its request or only its attention conflicts. */
  lemma ClaimedAtMostOnce(less: Order, db: Db, setupId: string, generation: string, requestId: string,
                          attentionId: string,
                          ops: seq<Operation>, requestId': string, attentionId': string)
    requires OneToOne(db) && ClaimIn(db, setupId, generation, requestId, attentionId).1 == Success(true)
    requires requestId' == requestId || attentionId' == attentionId
    ensures var later := After(less, ClaimIn(db, setupId, generation, requestId, attentionId).0, ops);
            ClaimIn(later, setupId, generation, requestId', attentionId').1 ==
            if requestId' == requestId && attentionId' == attentionId then Success(false) else Failure(ResponseConflict)
  {
    var granted := ClaimIn(db, setupId, generation, requestId, attentionId).0;
    var later := After(less, granted, ops);
    IdentityPersists(less, granted, ops);
    ResponsesStayOneToOne(less, granted, ops);
    var key := RequestKey(setupId, generation, requestId);
    assert key in later.responses && later.responses[key] == attentionId;
  }

  const EMPTY := Db(map[], map[])

  /** The k-th operation claimed the request for the attention, and was granted it. */
  predicate GrantedAt(less: Order, ops: seq<Operation>, k: nat, key: RequestKey, attentionId: string) {
    && k < |ops| && ops[k] == Claiming(key.setupId, key.setupGeneration, key.requestId, attentionId)
    && ClaimIn(After(less, EMPTY, ops[..k]), key.setupId, key.setupGeneration, key.requestId, attentionId).1 ==
         Success(true)
  }

  predicate Granted(less: Order, ops: seq<Operation>, key: RequestKey, attentionId: string) {
    exists k: nat :: k < |ops| && GrantedAt(less, ops, k, key, attentionId)
  }

  lemma {:induction false} RecordedExactly(less: Order, ops: seq<Operation>, key: RequestKey, attentionId: string)
    ensures var responses := After(less, EMPTY, ops).responses;
            key in responses && responses[key] == attentionId <==> Granted(less, ops, key, attentionId)
  {
    if ops != [] {
      var n := |ops| - 1;
      var before := ops[..n];
      RecordedExactly(less, before, key, attentionId);
      forall k: nat | k < n
        ensures GrantedAt(less, ops, k, key, attentionId) <==> GrantedAt(less, before, k, key, attentionId)
      {
        assert before[..k] == ops[..k];
      }
      RecordStep(less, After(less, EMPTY, before), ops[n], |ops|, key, attentionId);
      var now := After(less, EMPTY, ops).responses;
      if key in now && now[key] == attentionId {
        if Granted(less, before, key, attentionId) {
          var k: nat :| k < n && GrantedAt(less, before, k, key, attentionId);
          assert GrantedAt(less, ops, k, key, attentionId);
        } else {
          assert GrantedAt(less, ops, n, key, attentionId);
        }
      } else {
        forall k: nat | k < |ops| ensures !GrantedAt(less, ops, k, key, attentionId) {
          assert k < n ==> !GrantedAt(less, before, k, key, attentionId);
        }
      }
    }
  }

  /** A response is on record after an operation if it was before, or if the operation is granted it. */
  lemma RecordStep(less: Order, db: Db, op: Operation, now: nat, key: RequestKey, attentionId: string)
    ensures var responses := Perform(less, db, op, now).responses;
      key in responses && responses[key] == attentionId <==>
        (key in db.responses && db.responses[key] == attentionId) ||
        (op == Claiming(key.setupId, key.setupGeneration, key.requestId, attentionId)
         && ClaimIn(db, key.setupId, key.setupGeneration, key.requestId, attentionId).1 == Success(true))
  {
  }

  /** What the question whether a response was claimed is answered, in every run of the store: yes exactly if
      this pair was granted, a conflict exactly if the request was granted another attention, no exactly if it
      was granted none. */
  lemma ClaimedExactly(less: Order, ops: seq<Operation>, key: RequestKey, attentionId: string)
    ensures var answer := ClaimedIn(After(less, EMPTY, ops), key, attentionId);
            && (answer == Success(true) <==> Granted(less, ops, key, attentionId))
            && (answer == Failure(ResponseConflict) <==>
                exists other :: other != attentionId && Granted(less, ops, key, other))
            && (answer == Success(false) <==> forall other :: !Granted(less, ops, key, other))
  {
    forall other: string {
      RecordedExactly(less, ops, key, other);
    }
    var responses := After(less, EMPTY, ops).responses;
    if key in responses {
      assert Granted(less, ops, key, responses[key]);
    }
  }
}
