/** The stored call and the optimistic retry loop: internal/store/initiative.go and mutateWithRetry in
    internal/handler/initiative.go. Every store method is one atomic step. */
module InitiativeStore {
  import opened Seqs
  import opened TurnOrder
  import opened Tracker

  datatype Doc = Doc(call: Call, version: int)

  /** What a request can report. */
  datatype Outcome = Updated(doc: Doc) | Rejected(reason: Rejection) | NoOpenCall | GaveUp

  /** The stored document once an open call is resolved; anything else is left alone. */
  function ResolvedDoc(doc: Option<Doc>): Option<Doc> {
    if doc.Some? && doc.value.call.status == Open
    then Some(doc.value.(call := doc.value.call.(status := Resolved)))
    else doc
  }

  /** The TTL index deletes resolved calls only. */
  function ExpiredDoc(doc: Option<Doc>): Option<Doc> {
    if doc.Some? && doc.value.call.status == Resolved then None else doc
  }

  /** The one document of a campaign. */
  class Store {
    var doc: Option<Doc>

    method Get() returns (c: InitiativeCall?)
      ensures c == null <==> doc == None
      ensures c != null ==> fresh(c) && doc == Some(Doc(c.View(), c.version))
    {
      match doc
      case None => c := null;
      case Some(d) => c := new InitiativeCall(d.call, d.version);
    }

    method StartReplace(c: InitiativeCall)
      modifies this, c`version
      ensures doc == Some(Doc(c.View(), 1)) && c.version == 1
    {
      c.version := 1;
      doc := Some(Doc(c.View(), 1));
    }

    /** Replaces the document only if it still has the expected version. */
    method UpdateWithVersion(next: InitiativeCall, expected: int) returns (written: bool)
      modifies this, next`version
      ensures written <==> old(doc).Some? && old(doc).value.version == expected
      ensures next.version == expected + 1
      ensures doc == if written then Some(Doc(next.View(), expected + 1)) else old(doc)
    {
      next.version := expected + 1;
      written := doc.Some? && doc.value.version == expected;
      if written {
        doc := Some(Doc(next.View(), next.version));
      }
    }

    /** Resolves an open call; a resolved call is returned unchanged, a missing one is None. */
    method Resolve() returns (r: Option<Doc>)
      modifies this
      ensures doc == ResolvedDoc(old(doc)) && r == doc
      ensures doc.Some? <==> old(doc).Some?
      ensures doc.Some? ==> doc.value == Doc(old(doc).value.call.(status := Resolved), old(doc).value.version)
    {
      if doc.Some? && doc.value.call.status == Open {
        doc := Some(doc.value.(call := doc.value.call.(status := Resolved)));
        return doc;
      }
      r := doc;
    }
  }

  // ---------------------------------------------------------------- one request as a client program

  const MAX_ATTEMPTS := 3

  datatype Phase = Ready | Loaded(snapshot: Doc) | Finished(outcome: Outcome)

  /** A request between its store calls. `disturbed` is a history variable: a start, resolve or
      expiry took place since the snapshot was read. */
  datatype Client = Client(caller: Caller, op: Op, attempt: nat, phase: Phase, disturbed: bool)

  /** A request past its gate. */
  function FirstAttempt(caller: Caller, op: Op): Client {
    Client(caller, op, 0, Ready, false)
  }

  /** A request as it arrives: the gate may end it before it touches the store. */
  function NewClient(caller: Caller, op: Op): Client {
    match Gate(caller, op)
    case Some(e) => FirstAttempt(caller, op).(phase := Finished(Rejected(e)))
    case None => FirstAttempt(caller, op)
  }

  /** The read of an attempt. */
  function Load(doc: Option<Doc>, cl: Client): Client {
    if doc == None || doc.value.call.status != Open then cl.(phase := Finished(NoOpenCall))
    else cl.(phase := Loaded(doc.value), disturbed := false)
  }

  /** The conditional write of an attempt. */
  function Save(doc: Option<Doc>, cl: Client, newId: string): (Option<Doc>, Client)
    requires cl.phase.Loaded?
  {
    var snap := cl.phase.snapshot;
    match Step(snap.call, cl.caller, cl.op, newId)
    case Err(e) => (doc, cl.(phase := Finished(Rejected(e))))
    case Ok(next) =>
      if doc.Some? && doc.value.version == snap.version then
        (Some(Doc(next, snap.version + 1)), cl.(phase := Finished(Updated(Doc(next, snap.version + 1)))))
      else if cl.attempt + 1 == MAX_ATTEMPTS then (doc, cl.(attempt := cl.attempt + 1, phase := Finished(GaveUp)))
      else (doc, cl.(attempt := cl.attempt + 1, phase := Ready))
  }

  /** What the other requests have made of the document when an attempt reads and when it writes. */
  datatype World = World(atRead: Option<Doc>, atWrite: Option<Doc>)

  /** One attempt: read, reject or conditionally write. */
  function Attempt(w: World, cl: Client, newId: string): (Option<Doc>, Client) {
    var l := Load(w.atRead, cl);
    if l.phase.Loaded? then Save(w.atWrite, l, newId) else (w.atRead, l)
  }

  /** The whole request, when attempt k meets worlds[k] and generates newIds[k]. */
  function Drive(cl: Client, worlds: seq<World>, newIds: seq<string>): (Option<Doc>, Client)
    requires |worlds| == |newIds| == MAX_ATTEMPTS && cl.attempt < MAX_ATTEMPTS
    decreases MAX_ATTEMPTS - cl.attempt
  {
    AttemptCounts(worlds[cl.attempt], cl, newIds[cl.attempt]);
    var (d, c) := Attempt(worlds[cl.attempt], cl, newIds[cl.attempt]);
    if c.phase.Ready? then Drive(c, worlds, newIds) else (d, c)
  }

  /** What AttemptOnce reports of an attempt: nothing if it is to be repeated. */
  predicate Reports(outcome: Option<Outcome>, after: Phase) {
    if outcome == None then after == Ready || after == Finished(GaveUp) else after == Finished(outcome.value)
  }

  method AttemptOnce(store: Store, ghost cl: Client, caller: Caller, op: Op, w: World, newId: string)
    returns (outcome: Option<Outcome>)
    requires cl.caller == caller && cl.op == op && cl.attempt < MAX_ATTEMPTS
    modifies store
    ensures store.doc == Attempt(w, cl, newId).0 && Reports(outcome, Attempt(w, cl, newId).1.phase)
  {
    hide Save;
    store.doc := w.atRead;
    var call := store.Get();
    if call == null || call.status != Open { return Some(NoOpenCall); }
    outcome := SaveOnce(store, Load(w.atRead, cl), call, caller, op, w.atWrite, newId);
  }

  /** The part of an attempt that works on the loaded copy. */
  method SaveOnce(store: Store, ghost cl: Client, call: InitiativeCall, caller: Caller, op: Op, atWrite: Option<Doc>, newId: string)
    returns (outcome: Option<Outcome>)
    requires cl.caller == caller && cl.op == op && cl.phase == Loaded(Doc(call.View(), call.version))
    modifies store, call
    ensures store.doc == Save(atWrite, cl, newId).0 && Reports(outcome, Save(atWrite, cl, newId).1.phase)
  {
    hide Mutate, Sync;
    var expected := call.version;
    var rejection := MutateCall(call, caller, op, newId);
    store.doc := atWrite;
    if rejection != None { return Some(Rejected(rejection.value)); }
    var _ := SyncTurnState(call);
    var written := store.UpdateWithVersion(call, expected);
    if !written { return None; }
    outcome := Some(Updated(Doc(call.View(), call.version)));
  }

  /** The retry loop of the handlers, with the store disturbed by other requests at every turn. */
  method MutateWithRetry(store: Store, caller: Caller, op: Op, worlds: seq<World>, newIds: seq<string>)
    returns (outcome: Outcome)
    requires |worlds| == |newIds| == MAX_ATTEMPTS
    modifies store
    ensures var (doc, cl) := Drive(FirstAttempt(caller, op), worlds, newIds);
      store.doc == doc && cl.phase == Finished(outcome)
  {
    hide Save;
    ghost var cl := FirstAttempt(caller, op);
    ghost var result := Drive(cl, worlds, newIds);
    for attempt := 0 to MAX_ATTEMPTS
      invariant cl.caller == caller && cl.op == op && cl.attempt == attempt
      invariant attempt < MAX_ATTEMPTS ==> cl.phase == Ready && result == Drive(cl, worlds, newIds)
      invariant attempt == MAX_ATTEMPTS ==> result == (store.doc, cl) && cl.phase == Finished(GaveUp)
    {
      ghost var after := Attempt(worlds[attempt], cl, newIds[attempt]).1;
      AttemptCounts(worlds[attempt], cl, newIds[attempt]);
      var o := AttemptOnce(store, cl, caller, op, worlds[attempt], newIds[attempt]);
      if o.Some? { return o.value; }
      cl := after;
    }
    outcome := GaveUp;
  }

  /** A handler: the gate, then the retry loop. */
  method Serve(store: Store, caller: Caller, op: Op, worlds: seq<World>, newIds: seq<string>)
    returns (outcome: Outcome)
    requires |worlds| == |newIds| == MAX_ATTEMPTS
    modifies store
    ensures var first := NewClient(caller, op);
      if first.phase.Finished? then store.doc == old(store.doc) && first.phase == Finished(outcome)
      else
        var (doc, cl) := Drive(first, worlds, newIds);
        store.doc == doc && cl.phase == Finished(outcome)
  {
    hide Drive;
    var rejection := CheckGate(caller, op);
    if rejection != None { return Rejected(rejection.value); }
    outcome := MutateWithRetry(store, caller, op, worlds, newIds);
  }

  /** The checks at the top of the six handlers, in their order. */
  method CheckGate(caller: Caller, op: Op) returns (r: Option<Rejection>)
    ensures r == Gate(caller, op)
  {
    match op
    case Submit(playerId, _) =>
      if playerId == "" { return Some(BadRequest); }
      if !caller.isDM && playerId != caller.playerId { return Some(Forbidden); }
      r := None;
    case Enemy(_, name, _) =>
      if !caller.isDM { return Some(Forbidden); }
      if name == "" { return Some(BadRequest); }
      r := None;
    case EndTurn => r := None;
    case ResortOrder => r := if caller.isDM then None else Some(Forbidden);
    case Skip(_, _) => r := if caller.isDM then None else Some(Forbidden);
    case RemoveEnemy(_) => r := if caller.isDM then None else Some(Forbidden);
  }

  /** An attempt that ends in a conflict is counted; after the third the request gives up. */
  lemma AttemptCounts(w: World, cl: Client, newId: string)
    requires cl.attempt < MAX_ATTEMPTS
    ensures var after := Attempt(w, cl, newId).1;
      && after.caller == cl.caller && after.op == cl.op
      && !after.phase.Loaded?
      && (after.phase == Ready || after.phase == Finished(GaveUp) ==> after.attempt == cl.attempt + 1)
      && (after.phase == Ready ==> after.attempt < MAX_ATTEMPTS)
      && (after.phase == Finished(GaveUp) ==> after.attempt == MAX_ATTEMPTS)
  {
    hide Step;
  }
}
