/** Where linearizability ends: a resolve or a new start between a request's read and its write. */
module LinearizationLimits {
  import opened Seqs
  import opened TurnOrder
  import opened TurnOrderLaws
  import opened Tracker
  import opened TrackerLaws
  import opened InitiativeStore
  import opened Linearization
  import opened Fairness

  /** Request i has read the current document and would now change it. */
  predicate ReadyToWrite(s: System, i: nat, newId: string) {
    && Enabled(s, Write(i, newId))
    && s.doc == Some(s.clients[i].phase.snapshot)
    && Wrote(s.doc, s.clients[i], newId)
  }

  /** Such a moment is reached two steps after a start. */
  lemma WindowOpens(id: string, roster: seq<RosterEntry>, caller: Caller, newId: string)
    requires caller.isDM && forall i, j :: 0 <= i < j < |roster| ==> roster[i].id != roster[j].id
    requires FreshId(StartedCall(id, roster), newId)
    ensures var s := System(None, [NewClient(caller, ResortOrder)], NOTHING, 0);
      Initial(s) && ReadyToWrite(Exec(s, [StartNew(id, roster), Read(0)]), 0, newId)
  {
    var s := System(None, [NewClient(caller, ResortOrder)], NOTHING, 0);
    hide FreshId, Sync, Combatants;
    var one, two := [StartNew(id, roster)], [StartNew(id, roster), Read(0)];
    assert Init(one) == [] && Init(two) == one;
    assert Exec(s, one) == Next(s, StartNew(id, roster));
  }

  /** A resolve inside a window is undone by the write that closes it: resolving leaves the version
      alone, so the write goes through and the call is open again, as if it had never been resolved. */
  lemma ResolveInWindowIsLost(s: System, i: nat, newId: string)
    requires Inv(s) && ReadyToWrite(s, i, newId)
    ensures Enabled(s, ResolveOpen) && Enabled(Next(s, ResolveOpen), Write(i, newId))
    ensures Next(Next(s, ResolveOpen), Write(i, newId)).doc == Next(s, Write(i, newId)).doc
    ensures Next(s, Write(i, newId)).doc.Some? && Next(s, Write(i, newId)).doc.value.call.status == Open
  {
    hide Step, FreshId;
    assert ClientOk(s.doc, s.clients[i]);
    var cl := s.clients[i];
    StepStaysOpen(cl.phase.snapshot.call, cl.caller, cl.op, newId);
  }

  /** Client i only ever moves when it acts; a start marks it as disturbed. */
  lemma {:induction false} OthersLeaveClient(s: System, rest: seq<Action>, i: nat)
    requires i < |s.clients| && OnlyRequests(rest) && forall k :: 0 <= k < |rest| ==> !ActsFor(rest[k], i)
    ensures |Exec(s, rest).clients| == |s.clients| && Exec(s, rest).clients[i] == s.clients[i]
  {
    hide Load, Save, Wrote;
    if rest != [] {
      OthersLeaveClient(s, Init(rest), i);
      assert !ActsFor(rest[|rest| - 1], i) && (rest[|rest| - 1].Read? || rest[|rest| - 1].Write?);
    }
  }

  /** A new call started inside a window in which version v was read is replaced by the old call as soon as
      the new one has come to version v again, after v - 1 successful requests: starting resets the version. */
  lemma StartInWindowIsLost(s: System, i: nat, newId: string, id: string, roster: seq<RosterEntry>, rest: seq<Action>)
    requires Inv(s) && ReadyToWrite(s, i, newId) && Enabled(s, StartNew(id, roster))
    requires OnlyRequests(rest) && forall k :: 0 <= k < |rest| ==> !ActsFor(rest[k], i)
    requires var u := Exec(Next(s, StartNew(id, roster)), rest);
      u.doc.Some? && u.doc.value.version == s.doc.value.version
    ensures var u := Exec(Next(s, StartNew(id, roster)), rest);
      Enabled(u, Write(i, newId)) && Next(u, Write(i, newId)).doc == Next(s, Write(i, newId)).doc
  {
    hide FreshId, Exec, Inv, ActsFor, Step;
    var t := Next(s, StartNew(id, roster));
    assert i < |t.clients| && t.clients[i] == s.clients[i].(disturbed := true);
    OthersLeaveClient(t, rest, i);
    var u := Exec(t, rest);
    SameVersionSameWrite(s, u, i, newId);
  }

  /** A write looks at the version and at nothing else. */
  lemma SameVersionSameWrite(s: System, u: System, i: nat, newId: string)
    requires Enabled(s, Write(i, newId)) && s.doc.Some? && u.doc.Some? && u.doc.value.version == s.doc.value.version
    requires Wrote(s.doc, s.clients[i], newId) && i < |u.clients| && u.clients[i] == s.clients[i].(disturbed := true)
    ensures Enabled(u, Write(i, newId)) && Next(u, Write(i, newId)).doc == Next(s, Write(i, newId)).doc
  {
    hide Step, FreshId;
  }

  /** A resort by the DM, read and written with nothing in between. */
  lemma OneResort(s: System, i: nat, newId: string) returns (rest: seq<Action>)
    requires Inv(s) && s.doc.Some? && s.doc.value.call.status == Open && FreshId(s.doc.value.call, newId)
    requires i < |s.clients| && s.clients[i].op == ResortOrder && s.clients[i].phase.Ready?
    ensures rest == [Read(i), Write(i, newId)]
    ensures var t, d := Exec(s, rest), s.doc.value;
      && t.doc == Some(Doc(Sync(Resorted(d.call)), d.version + 1))
      && |t.clients| == |s.clients| && forall j :: 0 <= j < |s.clients| && j != i ==> t.clients[j] == s.clients[j]
  {
    hide FreshId, Sync, Valid, Follows;
    rest := [Read(i), Write(i, newId)];
    var t := Next(s, Read(i));
    assert [Read(i)] + [Write(i, newId)] == rest;
    ExecConcat(s, [Read(i)], [Write(i, newId)]);
    ExecOne(s, Read(i));
    ExecOne(t, Write(i, newId));
  }

  predicate DMsResorting(clients: seq<Client>, first: nat, n: nat, caller: Caller) {
    first + n <= |clients| && forall k :: first <= k < first + n ==> clients[k] == FirstAttempt(caller, ResortOrder)
  }

  /** n of them in a row. */
  lemma {:induction false} Climb(s: System, first: nat, n: nat, caller: Caller, newId: string) returns (rest: seq<Action>)
    requires Inv(s) && s.doc.Some? && s.doc.value.call.status == Open && FreshId(s.doc.value.call, newId)
    requires DMsResorting(s.clients, first, n, caller)
    ensures OnlyRequests(rest) && forall k, i: nat :: 0 <= k < |rest| && ActsFor(rest[k], i) ==> first <= i < first + n
    ensures var t, d := Exec(s, rest), s.doc.value;
      && Inv(t) && t.doc.Some? && t.doc.value.version == d.version + n
      && t.doc.value.call.id == d.call.id && t.doc.value.call.status == Open && FreshId(t.doc.value.call, newId)
      && |t.clients| == |s.clients|
      && forall j :: 0 <= j < |s.clients| && !(first <= j < first + n) ==> t.clients[j] == s.clients[j]
    decreases n
  {
    hide Inv, Valid, Follows, Next, Enabled, Exec, Order;
    if n == 0 {
      rest := [];
      assert Exec(s, []) == s by { NoActions(s); }
    } else {
      var a := OneResort(s, first, newId);
      var t := Exec(s, a);
      assert Inv(t) by { RunKeepsInv(s, a); }
      var b := Climb(t, first + 1, n - 1, caller, newId);
      rest := a + b;
      ExecConcat(s, a, b);
    }
  }

  lemma NoActions(s: System)
    ensures Exec(s, []) == s
  {
  }

  lemma {:induction false} RunKeepsInv(s: System, actions: seq<Action>)
    requires Inv(s)
    ensures Inv(Exec(s, actions))
  {
    hide Inv, Next;
    if actions != [] {
      RunKeepsInv(s, Init(actions));
      var t := Exec(s, Init(actions));
      if Enabled(t, Last(actions)) { NextKeepsInv(t, Last(actions)); }
    }
  }

  predicate Distinct(roster: seq<RosterEntry>) {
    forall i, j :: 0 <= i < j < |roster| ==> roster[i].id != roster[j].id
  }

  /** So many requests of a DM to resort, and no call yet. */
  function Resorters(n: nat, caller: Caller): System {
    System(None, seq(n, _ => NewClient(caller, ResortOrder)), NOTHING, 0)
  }

  /** A start makes version 1 and leaves those who have not begun alone. */
  lemma Started(s: System, id: string, roster: seq<RosterEntry>)
    requires Inv(s) && Distinct(roster)
    ensures Enabled(s, StartNew(id, roster)) && Inv(Next(s, StartNew(id, roster)))
    ensures var t := Next(s, StartNew(id, roster));
      && t.doc == Some(Doc(StartedCall(id, roster), 1)) && |t.clients| == |s.clients|
      && forall i :: 0 <= i < |s.clients| && !s.clients[i].phase.Loaded? ==> t.clients[i] == s.clients[i]
  {
    NextKeepsInv(s, StartNew(id, roster));
    hide Inv;
  }

  /** A resort reads the stored call and is now about to change it. */
  lemma AboutToResort(s: System, i: nat, newId: string)
    requires Inv(s) && s.doc.Some? && s.doc.value.call.status == Open && FreshId(s.doc.value.call, newId)
    requires i < |s.clients| && s.clients[i].op == ResortOrder && s.clients[i].phase.Ready?
    ensures Enabled(s, Read(i))
    ensures var t, d := Next(s, Read(i)), s.doc.value;
      && Inv(t) && ReadyToWrite(t, i, newId) && t.doc == s.doc && |t.clients| == |s.clients|
      && (forall j :: 0 <= j < |s.clients| && j != i ==> t.clients[j] == s.clients[j])
      && Next(t, Write(i, newId)).doc == Some(Doc(Sync(Resorted(d.call)), d.version + 1))
  {
    NextKeepsInv(s, Read(i));
    hide Inv, FreshId, Sync;
  }

  /** It happens at every version v: a call is started and resorted v - 1 times, a request reads it, another
      call is started and resorted v - 1 times, and the request's write brings the first call back. */
  lemma LostAtEveryVersion(v: nat, caller: Caller, newId: string,
                           id: string, roster: seq<RosterEntry>, id': string, roster': seq<RosterEntry>)
    returns (run: seq<Action>)
    requires v >= 1 && caller.isDM && Distinct(roster) && Distinct(roster')
    requires FreshId(StartedCall(id, roster), newId) && FreshId(StartedCall(id', roster'), newId)
    ensures Initial(Resorters(2 * v - 1, caller))
    ensures var t := Exec(Resorters(2 * v - 1, caller), run);
      && t.doc.Some? && t.doc.value.call.id == id' && t.doc.value.version == v && Enabled(t, Write(0, newId))
      && var u := Next(t, Write(0, newId)); u.doc.Some? && u.doc.value.call.id == id && u.doc.value.version == v + 1
  {
    hide Inv, Valid, Follows, Next, Enabled, Exec, FreshId, ReadyToWrite, Combatants, Order;
    var s := Resorters(2 * v - 1, caller);
    NoActions(s);
    assert Inv(s) by { ExecKeepsInv(s, []); }
    Started(s, id, roster);
    var s1 := Next(s, StartNew(id, roster));
    ExecOne(s, StartNew(id, roster));
    var a := Climb(s1, 1, v - 1, caller, newId);
    var s2 := Exec(s1, a);
    AboutToResort(s2, 0, newId);
    var s3 := Next(s2, Read(0));
    ExecOne(s2, Read(0));
    Started(s3, id', roster');
    var s4 := Next(s3, StartNew(id', roster'));
    ExecOne(s3, StartNew(id', roster'));
    var b := Climb(s4, v, v - 1, caller, newId);
    StartInWindowIsLost(s3, 0, newId, id', roster', b);
    run := [StartNew(id, roster)] + a + [Read(0)] + [StartNew(id', roster')] + b;
    ExecConcat(s, [StartNew(id, roster)] + a + [Read(0)] + [StartNew(id', roster')], b);
    ExecConcat(s, [StartNew(id, roster)] + a + [Read(0)], [StartNew(id', roster')]);
    ExecConcat(s, [StartNew(id, roster)] + a, [Read(0)]);
    ExecConcat(s, [StartNew(id, roster)], a);
  }
}
