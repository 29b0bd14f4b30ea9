/** Any number of requests, starts, resolves and expiries on one stored call, interleaved at the level
    of single store operations. */
module Linearization {
  import opened Seqs
  import opened TurnOrder
  import opened TurnOrderLaws
  import opened Tracker
  import opened TrackerLaws
  import opened Fairness
  import opened InitiativeStore

  datatype Action =
    | Read(i: nat)
    | Write(i: nat, newId: string)
    | StartNew(id: string, roster: seq<RosterEntry>)
    | ResolveOpen
    | Expire

  /** `past` is a history variable: the calls stored since the last start, resolve, expiry or disturbed
      write, and the accepted requests that led from each to the next. `first` is the version of the
      oldest of them. */
  datatype System = System(doc: Option<Doc>, clients: seq<Client>, past: Run, first: int)

  const NOTHING := Run([], [])

  predicate Enabled(s: System, a: Action) {
    match a
    case Read(i) => i < |s.clients| && s.clients[i].phase.Ready?
    case Write(i, newId) =>
      i < |s.clients| && s.clients[i].phase.Loaded? && FreshId(s.clients[i].phase.snapshot.call, newId)
    case StartNew(_, roster) => forall i, j :: 0 <= i < j < |roster| ==> roster[i].id != roster[j].id
    case ResolveOpen => s.doc.Some? && s.doc.value.call.status == Open
    case Expire => s.doc.Some? && s.doc.value.call.status == Resolved
  }

  function Disturb(cl: Client): Client {
    if cl.phase.Loaded? then cl.(disturbed := true) else cl
  }

  function DisturbAll(clients: seq<Client>): (r: seq<Client>)
    ensures |r| == |clients|
  {
    seq(|clients|, i requires 0 <= i < |clients| => Disturb(clients[i]))
  }

  predicate Wrote(doc: Option<Doc>, cl: Client, newId: string)
    requires cl.phase.Loaded?
  {
    Save(doc, cl, newId).1.phase.Finished? && Save(doc, cl, newId).1.phase.outcome.Updated?
  }

  function Next(s: System, a: Action): System
    requires Enabled(s, a)
  {
    match a
    case Read(i) => s.(clients := s.clients[i := Load(s.doc, s.clients[i])])
    case Write(i, newId) =>
      var cl := s.clients[i];
      var (doc, after) := Save(s.doc, cl, newId);
      var t := s.(doc := doc, clients := s.clients[i := after]);
      if !Wrote(s.doc, cl, newId) then t
      else if cl.disturbed then t.(past := Run([doc.value.call], []), first := doc.value.version)
      else t.(past := Run(s.past.calls + [doc.value.call], s.past.events + [Event(cl.caller, cl.op, newId)]))
    case StartNew(id, roster) =>
      var c := StartedCall(id, roster);
      System(Some(Doc(c, 1)), DisturbAll(s.clients), Run([c], []), 1)
    case ResolveOpen =>
      var d := ResolvedDoc(s.doc);
      System(d, DisturbAll(s.clients), Run([d.value.call], []), d.value.version)
    case Expire =>
      System(ExpiredDoc(s.doc), DisturbAll(s.clients), NOTHING, 0)
  }

  /** Actions that are not enabled do nothing. */
  function Exec(s: System, actions: seq<Action>): System {
    if actions == [] then s
    else
      var t := Exec(s, Init(actions));
      if Enabled(t, Last(actions)) then Next(t, Last(actions)) else t
  }

  predicate Initial(s: System) {
    && s.doc == None && s.past == NOTHING && s.first == 0
    && forall i :: 0 <= i < |s.clients| ==> s.clients[i] == NewClient(s.clients[i].caller, s.clients[i].op)
  }

  // ---------------------------------------------------------------- invariant of all runs

  /** The recorded calls lead to the stored one, one version per request. */
  predicate PastMatches(s: System) {
    match s.doc
    case None => s.past == NOTHING
    case Some(d) =>
      && |s.past.calls| == |s.past.events| + 1
      && Last(s.past.calls) == d.call
      && d.version == s.first + |s.past.events|
      && (forall i :: 0 <= i < |s.past.events| ==> Follows(s.past.calls[i], s.past.events[i], s.past.calls[i + 1]))
      && (d.call.status == Open ==> Valid(s.past.calls[0]) && Valid(d.call))
  }

  predicate ClientOk(doc: Option<Doc>, cl: Client) {
    && (cl.phase.Ready? || cl.phase.Loaded? ==> cl.attempt < MAX_ATTEMPTS)
    && (cl.phase.Loaded? ==>
          && Valid(cl.phase.snapshot.call)
          && (!cl.disturbed ==>
                && doc.Some? && doc.value.call.status == Open
                && cl.phase.snapshot.version <= doc.value.version
                && (cl.phase.snapshot.version == doc.value.version ==> cl.phase.snapshot == doc.value)))
  }

  predicate Inv(s: System) {
    PastMatches(s) && forall i :: 0 <= i < |s.clients| ==> ClientOk(s.doc, s.clients[i])
  }

  /** A write by a client that nothing disturbed starts from the very document it replaces. */
  lemma UndisturbedWriteIsAtomic(s: System, i: nat, newId: string)
    requires Inv(s) && Enabled(s, Write(i, newId)) && !s.clients[i].disturbed && Wrote(s.doc, s.clients[i], newId)
    ensures s.doc == Some(s.clients[i].phase.snapshot)
    ensures var cl, t := s.clients[i], Next(s, Write(i, newId));
      && Step(s.doc.value.call, cl.caller, cl.op, newId) == Ok(t.doc.value.call)
      && t.doc.value.version == s.doc.value.version + 1
      && t.past.events == s.past.events + [Event(cl.caller, cl.op, newId)]
  {
    hide Step;
  }

  /** A request that is rejected or meets a conflict leaves the document alone. */
  lemma FailedWriteWritesNothing(s: System, i: nat, newId: string)
    requires Enabled(s, Write(i, newId)) && !Wrote(s.doc, s.clients[i], newId)
    ensures Next(s, Write(i, newId)).doc == s.doc && Next(s, Write(i, newId)).past == s.past
    ensures Step(s.clients[i].phase.snapshot.call, s.clients[i].caller, s.clients[i].op, newId).Err?
         || s.doc == None || s.doc.value.version != s.clients[i].phase.snapshot.version
  {
    hide Step;
  }

  lemma WriteKeepsInv(s: System, i: nat, newId: string)
    requires Inv(s) && Enabled(s, Write(i, newId))
    ensures Inv(Next(s, Write(i, newId)))
  {
    hide Step, Valid, FreshId;
    var cl, t := s.clients[i], Next(s, Write(i, newId));
    var snap := cl.phase.snapshot;
    if Wrote(s.doc, cl, newId) {
      StepKeepsValid(snap.call, cl.caller, cl.op, newId);
      StepStaysOpen(snap.call, cl.caller, cl.op, newId);
      if !cl.disturbed {
        UndisturbedWriteIsAtomic(s, i, newId);
        assert Last(s.past.calls) == s.past.calls[|s.past.events|];
        assert Follows(snap.call, Event(cl.caller, cl.op, newId), t.doc.value.call);
      }
    } else {
      FailedWriteWritesNothing(s, i, newId);
    }
    forall j | 0 <= j < |t.clients| ensures ClientOk(t.doc, t.clients[j]) {
      assert ClientOk(s.doc, s.clients[j]);
    }
  }

  lemma StepStaysOpen(c: Call, caller: Caller, op: Op, newId: string)
    requires Valid(c) && FreshId(c, newId) && Step(c, caller, op, newId).Ok?
    ensures Step(c, caller, op, newId).value.status == Open
  {
    StepKeepsValid(c, caller, op, newId);
  }

  lemma NextKeepsInv(s: System, a: Action)
    requires Inv(s) && Enabled(s, a)
    ensures Inv(Next(s, a))
  {
    hide Step, Valid, Follows;
    match a
    case Write(i, newId) => WriteKeepsInv(s, i, newId);
    case Read(i) =>
      assert ClientOk(s.doc, s.clients[i]);
    case StartNew(id, roster) =>
      StartIsValid(id, roster);
    case ResolveOpen =>
    case Expire =>
  }

  lemma {:induction false} ExecKeepsInv(s: System, actions: seq<Action>)
    requires Initial(s)
    ensures Inv(Exec(s, actions))
  {
    if actions != [] {
      ExecKeepsInv(s, Init(actions));
      var t := Exec(s, Init(actions));
      if Enabled(t, Last(actions)) {
        NextKeepsInv(t, Last(actions));
      }
    }
  }

  /** Whatever happens, a stored open call satisfies the tracker's invariant. */
  lemma StoredCallIsValid(s: System, actions: seq<Action>)
    requires Initial(s)
    ensures var t := Exec(s, actions);
      t.doc.Some? && t.doc.value.call.status == Open ==> Valid(t.doc.value.call)
  {
    ExecKeepsInv(s, actions);
  }

  // ---------------------------------------------------------------- linearizability

  /** The requests applied one after another to a call. */
  function Replay(c: Call, events: seq<Event>): Result<Call, Rejection> {
    if events == [] then Ok(c)
    else match Replay(c, Init(events))
      case Err(e) => Err(e)
      case Ok(d) => Step(d, Last(events).caller, Last(events).op, Last(events).newId)
  }

  lemma {:induction false} ReplayOfPast(r: Run, n: nat)
    requires |r.calls| == |r.events| + 1 && n <= |r.events|
    requires forall i :: 0 <= i < |r.events| ==> Follows(r.calls[i], r.events[i], r.calls[i + 1])
    ensures Replay(r.calls[0], r.events[..n]) == Ok(r.calls[n])
  {
    hide Step;
    if n > 0 {
      ReplayOfPast(r, n - 1);
      assert Init(r.events[..n]) == r.events[..n - 1];
      assert Follows(r.calls[n - 1], r.events[n - 1], r.calls[n]);
    }
  }

  /** The stored call is what the successful requests, applied one after another in version order,
      make of the oldest recorded call, and the version counts them. */
  lemma Linearizable(s: System, actions: seq<Action>)
    requires Initial(s)
    ensures var t := Exec(s, actions);
      t.doc.Some? ==>
        && t.past.calls != []
        && Replay(t.past.calls[0], t.past.events) == Ok(t.doc.value.call)
        && t.doc.value.version == t.first + |t.past.events|
        && (t.doc.value.call.status == Open ==> IsRun(t.past))
  {
    ExecKeepsInv(s, actions);
    var t := Exec(s, actions);
    if t.doc.Some? {
      ReplayOfPast(t.past, |t.past.events|);
      assert t.past.events[..|t.past.events|] == t.past.events;
    }
  }

  /** No start, resolve or expiry falls between a request's read and its write. */
  predicate QuietWindows(s: System, actions: seq<Action>) {
    actions == []
    || (QuietWindows(s, Init(actions))
        && (Last(actions).Read? || Last(actions).Write?
            || !Enabled(Exec(s, Init(actions)), Last(actions))
            || forall i :: 0 <= i < |Exec(s, Init(actions)).clients| ==> !Exec(s, Init(actions)).clients[i].phase.Loaded?))
  }

  /** Then no request is ever disturbed, and the record restarts at starts, resolves and expiries only. */
  lemma {:induction false} QuietMeansUndisturbed(s: System, actions: seq<Action>)
    requires Initial(s) && QuietWindows(s, actions)
    ensures forall cl :: cl in Exec(s, actions).clients && cl.phase.Loaded? ==> !cl.disturbed
  {
    hide Step, Valid, FreshId;
    if actions != [] {
      QuietMeansUndisturbed(s, Init(actions));
      var t, u := Exec(s, Init(actions)), Exec(s, actions);
      forall cl | cl in u.clients && cl.phase.Loaded? ensures !cl.disturbed {
        var k :| 0 <= k < |u.clients| && u.clients[k] == cl;
        assert t.clients[k] in t.clients;
      }
    }
  }

  /** Under quiet windows every request either leaves the document alone or is applied to it atomically. */
  lemma QuietRequestsAreAtomic(s: System, actions: seq<Action>, i: nat, newId: string)
    requires Initial(s) && QuietWindows(s, actions)
    requires Enabled(Exec(s, actions), Write(i, newId))
    ensures var t := Exec(s, actions);
      var u := Next(t, Write(i, newId));
      || (u.doc == t.doc && u.past == t.past)
      || (&& t.doc.Some? && u.doc.Some?
          && Step(t.doc.value.call, t.clients[i].caller, t.clients[i].op, newId) == Ok(u.doc.value.call)
          && u.doc.value.version == t.doc.value.version + 1
          && u.past.events == t.past.events + [Event(t.clients[i].caller, t.clients[i].op, newId)]
          && u.first == t.first)
  {
    hide Step, Valid, FreshId;
    var t := Exec(s, actions);
    ExecKeepsInv(s, actions);
    QuietMeansUndisturbed(s, actions);
    assert t.clients[i] in t.clients;
    if Wrote(t.doc, t.clients[i], newId) {
      UndisturbedWriteIsAtomic(t, i, newId);
    } else {
      FailedWriteWritesNothing(t, i, newId);
    }
  }

  // ---------------------------------------------------------------- from one start on

  /** The request has reported success. */
  predicate Reported(cl: Client) {
    cl.phase.Finished? && cl.phase.outcome.Updated?
  }

  /** `who` lists, in version order, the requests that succeeded since the call was started: each is the
      recorded event at its place and reported the call and the version that it stored. */
  predicate IsSuccessList(t: System, who: seq<nat>) {
    && |who| == |t.past.events| && |t.past.calls| == |who| + 1 && NoDup(who)
    && forall k :: 0 <= k < |who| ==>
         && who[k] < |t.clients|
         && t.past.events[k].caller == t.clients[who[k]].caller && t.past.events[k].op == t.clients[who[k]].op
         && t.clients[who[k]].phase == Finished(Updated(Doc(t.past.calls[k + 1], k + 2)))
  }

  predicate OnlyRequests(actions: seq<Action>) {
    forall i :: 0 <= i < |actions| ==> actions[i].Read? || actions[i].Write?
  }

  /** No write succeeds whose read lies before a start, resolve or expiry. */
  predicate NoStaleSuccess(s: System, actions: seq<Action>) {
    actions == []
    || (NoStaleSuccess(s, Init(actions)) && !SucceedsStale(Exec(s, Init(actions)), Last(actions)))
  }

  predicate SucceedsStale(s: System, a: Action) {
    a.Write? && Enabled(s, a) && s.clients[a.i].disturbed && Wrote(s.doc, s.clients[a.i], a.newId)
  }

  predicate NobodyLoaded(s: System) {
    forall i :: 0 <= i < |s.clients| ==> !s.clients[i].phase.Loaded?
  }

  /** What holds from the start on; `before` are the clients as they were then. */
  predicate Since(before: seq<Client>, c: Call, t: System, who: seq<nat>) {
    && Inv(t) && t.doc.Some? && t.first == 1 && t.past.calls != [] && t.past.calls[0] == c && |t.clients| == |before|
    && IsSuccessList(t, who)
    && (forall i :: 0 <= i < |before| && Reported(before[i]) ==> t.clients[i] == before[i] && i !in who)
    && (forall i :: 0 <= i < |before| && Reported(t.clients[i]) && !Reported(before[i]) ==> i in who)
  }

  lemma SinceRead(before: seq<Client>, c: Call, t: System, who: seq<nat>, i: nat)
    requires Since(before, c, t, who) && Enabled(t, Read(i))
    ensures Since(before, c, Next(t, Read(i)), who)
  {
    hide Step, Valid, Follows;
    NextKeepsInv(t, Read(i));
    var u := Next(t, Read(i));
    hide Inv;
    assert forall k :: 0 <= k < |who| ==> who[k] != i;
  }

  /** What a successful undisturbed write does to the record and to its client. */
  lemma SuccessIsRecorded(t: System, i: nat, newId: string)
    requires Inv(t) && Enabled(t, Write(i, newId)) && !t.clients[i].disturbed && Wrote(t.doc, t.clients[i], newId)
    ensures t.doc.Some? && PastMatches(t)
    ensures var u, cl := Next(t, Write(i, newId)), t.clients[i];
      && u.doc.Some? && u.doc.value.version == t.doc.value.version + 1 && u.first == t.first
      && u.past.calls == t.past.calls + [u.doc.value.call]
      && u.past.events == t.past.events + [Event(cl.caller, cl.op, newId)]
      && u.clients == t.clients[i := cl.(phase := Finished(Updated(u.doc.value)))]
  {
    hide Step, Valid, Follows, FreshId;
    UndisturbedWriteIsAtomic(t, i, newId);
  }

  /** A failed write leaves everything but its client as it was, and that client does not report success. */
  lemma FailureIsSilent(t: System, i: nat, newId: string)
    requires Enabled(t, Write(i, newId)) && !Wrote(t.doc, t.clients[i], newId)
    ensures var u := Next(t, Write(i, newId));
      && u.doc == t.doc && u.past == t.past && u.first == t.first && |u.clients| == |t.clients|
      && u == t.(clients := t.clients[i := u.clients[i]])
      && !Reported(u.clients[i]) && !u.clients[i].phase.Loaded?
  {
    hide Step, FreshId;
    FailedWriteWritesNothing(t, i, newId);
  }

  lemma SinceSuccess(before: seq<Client>, c: Call, t: System, u: System, who: seq<nat>, i: nat, newId: string)
    requires Since(before, c, t, who) && Inv(u) && i < |t.clients| && t.clients[i].phase.Loaded? && PastMatches(t)
    requires u.doc.Some? && u.doc.value.version == t.doc.value.version + 1 && u.first == t.first
    requires u.past.calls == t.past.calls + [u.doc.value.call]
    requires u.past.events == t.past.events + [Event(t.clients[i].caller, t.clients[i].op, newId)]
    requires u.clients == t.clients[i := t.clients[i].(phase := Finished(Updated(u.doc.value)))]
    ensures Since(before, c, u, who + [i])
  {
    hide Inv, Follows, Valid;
    assert forall k :: 0 <= k < |who| ==> who[k] != i;
    assert !Reported(before[i]);
    NoDupSnoc(who, i);
    assert t.doc.value.version == 1 + |who|;
    assert (who + [i])[|who|] == i;
  }

  lemma SinceFailure(before: seq<Client>, c: Call, t: System, u: System, who: seq<nat>, i: nat)
    requires Since(before, c, t, who) && Inv(u) && i < |t.clients| && t.clients[i].phase.Loaded?
    requires |u.clients| == |t.clients| && u == t.(clients := t.clients[i := u.clients[i]])
    requires !Reported(u.clients[i]) && !u.clients[i].phase.Loaded?
    ensures Since(before, c, u, who)
  {
    hide Inv;
    assert forall k :: 0 <= k < |who| ==> who[k] != i;
    assert !Reported(before[i]);
  }

  lemma SinceWrite(before: seq<Client>, c: Call, t: System, who: seq<nat>, i: nat, newId: string)
    requires Since(before, c, t, who) && Enabled(t, Write(i, newId)) && !SucceedsStale(t, Write(i, newId))
    ensures Since(before, c, Next(t, Write(i, newId)), if Wrote(t.doc, t.clients[i], newId) then who + [i] else who)
  {
    var u := Next(t, Write(i, newId));
    NextKeepsInv(t, Write(i, newId));
    hide Inv, IsSuccessList, Next, Wrote, FreshId;
    if Wrote(t.doc, t.clients[i], newId) {
      SuccessIsRecorded(t, i, newId);
      SinceSuccess(before, c, t, u, who, i, newId);
    } else {
      FailureIsSilent(t, i, newId);
      SinceFailure(before, c, t, u, who, i);
    }
  }

  lemma SinceStart(s: System, id: string, roster: seq<RosterEntry>)
    requires Inv(s) && Enabled(s, StartNew(id, roster))
    ensures Since(s.clients, StartedCall(id, roster), Next(s, StartNew(id, roster)), [])
  {
    hide Step, Valid, Follows;
    NextKeepsInv(s, StartNew(id, roster));
    hide Inv;
  }

  lemma {:induction false} SinceRequests(before: seq<Client>, c: Call, s: System, rest: seq<Action>) returns (who: seq<nat>)
    requires Since(before, c, s, []) && OnlyRequests(rest) && NoStaleSuccess(s, rest)
    ensures Since(before, c, Exec(s, rest), who)
  {
    hide Since, Enabled, Next, Wrote, SucceedsStale;
    if rest == [] {
      who := [];
    } else {
      var t, a := Exec(s, Init(rest)), Last(rest);
      who := SinceRequests(before, c, s, Init(rest));
      assert rest[|rest| - 1].Read? || rest[|rest| - 1].Write?;
      if Enabled(t, a) {
        if a.Read? {
          SinceRead(before, c, t, who, a.i);
        } else {
          WritersAreLoaded(t, a.i, a.newId);
          SinceWrite(before, c, t, who, a.i, a.newId);
          who := if Wrote(t.doc, t.clients[a.i], a.newId) then who + [a.i] else who;
        }
      }
    }
  }

  lemma WritersAreLoaded(s: System, i: nat, newId: string)
    requires Enabled(s, Write(i, newId))
    ensures i < |s.clients| && s.clients[i].phase.Loaded?
  {
  }

  lemma {:induction false} ExecConcat(s: System, a: seq<Action>, b: seq<Action>)
    ensures Exec(s, a + b) == Exec(Exec(s, a), b)
  {
    hide Next, Enabled;
    if b == [] {
      assert a + b == a;
    } else {
      assert Init(a + b) == a + Init(b) && Last(a + b) == Last(b);
      ExecConcat(s, a, Init(b));
    }
  }

  lemma ExecOne(s: System, a: Action)
    requires Enabled(s, a)
    ensures Exec(s, [a]) == Next(s, a)
  {
    assert Init([a]) == [];
  }

  /** A call is started in any run, then requests come in any order, but no further start, resolve or expiry.
      Unless a request that read before the start succeeds after it, the stored call is in the end the started
      one with exactly the requests applied that reported success since, one after another in the order of the
      versions they reported, and the version is one more than their number. */
  lemma QuietRunIsReplay(s: System, pre: seq<Action>, id: string, roster: seq<RosterEntry>, rest: seq<Action>)
    returns (who: seq<nat>)
    requires Initial(s) && OnlyRequests(rest)
    requires Enabled(Exec(s, pre), StartNew(id, roster))
    requires NoStaleSuccess(Exec(s, pre + [StartNew(id, roster)]), rest)
    ensures var before, t := Exec(s, pre).clients, Exec(s, pre + [StartNew(id, roster)] + rest);
      && t.doc.Some?
      && Replay(StartedCall(id, roster), t.past.events) == Ok(t.doc.value.call)
      && t.doc.value.version == 1 + |who|
      && IsSuccessList(t, who)
      && |t.clients| == |before|
      && forall i :: 0 <= i < |before| ==> (i in who <==> Reported(t.clients[i]) && !Reported(before[i]))
  {
    hide Step, Valid, Follows, Next, Enabled;
    var before, a := Exec(s, pre), StartNew(id, roster);
    ExecKeepsInv(s, pre);
    SinceStart(before, id, roster);
    who := SinceRequests(before.clients, StartedCall(id, roster), Next(before, a), rest);
    ExecConcat(s, pre + [a], rest);
    ExecConcat(s, pre, [a]);
    ExecOne(before, a);
    var t := Exec(s, pre + [a] + rest);
    ReplayOfPast(t.past, |t.past.events|);
    assert t.past.events[..|t.past.events|] == t.past.events;
  }

  /** The record reaches back to the start exactly as long as nothing stale succeeds. */
  lemma {:induction false} RecordReachesBack(s: System, id: string, roster: seq<RosterEntry>, rest: seq<Action>)
    requires Enabled(s, StartNew(id, roster)) && OnlyRequests(rest)
    ensures var t := Exec(Next(s, StartNew(id, roster)), rest);
      && t.doc.Some? && t.doc.value.version >= 1 && t.first >= 1
      && (t.first == 1 <==> NoStaleSuccess(Next(s, StartNew(id, roster)), rest))
  {
    if rest != [] {
      RecordReachesBack(s, id, roster, Init(rest));
      hide Step, FreshId;
      assert rest[|rest| - 1].Read? || rest[|rest| - 1].Write?;
    }
  }

  /** Nothing stale can succeed if no request is between its read and its write when the call is started. */
  lemma {:induction false} NobodyLoadedNobodyStale(s: System, id: string, roster: seq<RosterEntry>, rest: seq<Action>)
    requires Enabled(s, StartNew(id, roster)) && NobodyLoaded(s) && OnlyRequests(rest)
    ensures NoStaleSuccess(Next(s, StartNew(id, roster)), rest)
    ensures forall cl :: cl in Exec(Next(s, StartNew(id, roster)), rest).clients && cl.phase.Loaded? ==> !cl.disturbed
  {
    var t := Next(s, StartNew(id, roster));
    if rest != [] {
      NobodyLoadedNobodyStale(s, id, roster, Init(rest));
      hide Step, FreshId, Wrote;
      var u, a := Exec(t, Init(rest)), Last(rest);
      assert rest[|rest| - 1].Read? || rest[|rest| - 1].Write?;
      if Enabled(u, a) {
        assert u.clients[a.i] in u.clients;
        UndisturbedStay(u, a);
      }
    }
  }

  lemma UndisturbedStay(s: System, a: Action)
    requires (a.Read? || a.Write?) && Enabled(s, a)
    requires forall cl :: cl in s.clients && cl.phase.Loaded? ==> !cl.disturbed
    ensures forall cl :: cl in Next(s, a).clients && cl.phase.Loaded? ==> !cl.disturbed
  {
    hide Step, FreshId;
    var t := Next(s, a);
    forall cl | cl in t.clients && cl.phase.Loaded? ensures !cl.disturbed {
      var k :| 0 <= k < |t.clients| && t.clients[k] == cl;
      assert s.clients[k] in s.clients;
    }
  }

  // ---------------------------------------------------------------- permissions

  /** Requests at work, and those recorded as successful, have passed their gates. */
  predicate Permitted(s: System) {
    && (forall i :: 0 <= i < |s.clients| && !s.clients[i].phase.Finished? ==> Gate(s.clients[i].caller, s.clients[i].op) == None)
    && (forall i :: 0 <= i < |s.past.events| ==> Gate(s.past.events[i].caller, s.past.events[i].op) == None)
  }

  /** Nobody but the DM ever changes a call, except players submitting rolls for themselves and players
      ending the turn that is theirs. */
  lemma OnlyPermittedChanges(s: System, actions: seq<Action>)
    requires Initial(s)
    ensures var r := Exec(s, actions).past;
      forall i :: 0 <= i < |r.events| ==> i < |r.calls| && MayChange(r.calls[i], r.events[i])
  {
    AlwaysPermitted(s, actions);
    ExecKeepsInv(s, actions);
    var t := Exec(s, actions);
    forall i | 0 <= i < |t.past.events| ensures MayChange(t.past.calls[i], t.past.events[i]) {
      assert Follows(t.past.calls[i], t.past.events[i], t.past.calls[i + 1]);
    }
  }

  /** The caller may make this change to this call. */
  predicate MayChange(c: Call, e: Event) {
    || e.caller.isDM
    || (e.caller.playerId != ""
        && match e.op
           case Submit(playerId, _) => playerId == e.caller.playerId
           case EndTurn => Order(c) != [] && PlayerOf(c.participants, Order(c)[0]) == e.caller.playerId
           case _ => false)
  }

  lemma {:induction false} AlwaysPermitted(s: System, actions: seq<Action>)
    requires Initial(s)
    ensures Permitted(Exec(s, actions))
  {
    hide Step, FreshId, Gate;
    if actions != [] {
      AlwaysPermitted(s, Init(actions));
    }
  }

  // ---------------------------------------------------------------- termination

  /** How many more store operations a request can make. */
  function Fuel(cl: Client): int {
    match cl.phase
    case Ready => 2 * (MAX_ATTEMPTS - cl.attempt)
    case Loaded(_) => 2 * (MAX_ATTEMPTS - cl.attempt) - 1
    case Finished(_) => 0
  }

  predicate ActsFor(a: Action, i: nat) {
    a == Read(i) || (a.Write? && a.i == i)
  }

  /** Enabled operations of request i in a run. */
  function Operations(s: System, actions: seq<Action>, i: nat): nat {
    if actions == [] then 0
    else Operations(s, Init(actions), i)
         + (if ActsFor(Last(actions), i) && Enabled(Exec(s, Init(actions)), Last(actions)) then 1 else 0)
  }

  /** Every request ends within three attempts, whatever the others do: it makes at most six store
      operations, and an unfinished one always has an operation left to make. */
  lemma {:induction false} RequestsEnd(s: System, actions: seq<Action>, i: nat)
    requires Initial(s) && i < |s.clients|
    ensures var t := Exec(s, actions);
      && |t.clients| == |s.clients|
      && Operations(s, actions, i) + Fuel(t.clients[i]) <= 6
      && Fuel(t.clients[i]) >= 0
      && (Fuel(t.clients[i]) == 0 <==> t.clients[i].phase.Finished?)
  {
    hide Step, Valid, FreshId;
    if actions != [] {
      RequestsEnd(s, Init(actions), i);
      ExecKeepsInv(s, Init(actions));
      var t := Exec(s, Init(actions));
      assert ClientOk(t.doc, t.clients[i]);
    }
  }
}
