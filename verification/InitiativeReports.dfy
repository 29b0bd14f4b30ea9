/** What the answers of initiative requests say about the stored call, in any run. */
module InitiativeReports {
  import opened Seqs
  import opened TurnOrder
  import opened Tracker
  import opened TrackerLaws
  import opened InitiativeStore
  import opened Linearization

  /** The document was stored at some moment of the run. */
  predicate WasStored(s: System, actions: seq<Action>, d: Doc) {
    exists k :: 0 <= k <= |actions| && Exec(s, actions[..k]).doc == Some(d)
  }

  predicate NoneOpen(doc: Option<Doc>) {
    doc == None || doc.value.call.status != Open
  }

  predicate NoneWasOpen(s: System, actions: seq<Action>) {
    exists k :: 0 <= k <= |actions| && NoneOpen(Exec(s, actions[..k]).doc)
  }

  /** The request was applied to a stored open call, with this result. */
  ghost predicate WasDecided(s: System, actions: seq<Action>, cl: Client, snap: Doc, newId: string, r: Result<Call, Rejection>) {
    WasStored(s, actions, snap) && snap.call.status == Open && Step(snap.call, cl.caller, cl.op, newId) == r
  }

  /** The phase a request is in is backed by the run. */
  ghost predicate IsTrue(s: System, actions: seq<Action>, cl: Client) {
    match cl.phase
    case Ready => true
    case Loaded(snap) => WasStored(s, actions, snap) && snap.call.status == Open
    case Finished(NoOpenCall) => NoneWasOpen(s, actions)
    case Finished(Rejected(e)) =>
      Gate(cl.caller, cl.op) == Some(e) || exists snap, newId :: WasDecided(s, actions, cl, snap, newId, Err(e))
    case Finished(Updated(d)) =>
      WasStored(s, actions, d) && exists snap, newId :: WasDecided(s, actions, cl, snap, newId, Ok(d.call)) && d.version == snap.version + 1
    case Finished(GaveUp) => true
  }

  lemma StaysStored(s: System, actions: seq<Action>, d: Doc)
    requires actions != [] && WasStored(s, Init(actions), d)
    ensures WasStored(s, actions, d)
  {
    var k :| 0 <= k <= |Init(actions)| && Exec(s, Init(actions)[..k]).doc == Some(d);
    assert Init(actions)[..k] == actions[..k];
  }

  lemma StoredNow(s: System, actions: seq<Action>, d: Doc)
    requires Exec(s, actions).doc == Some(d)
    ensures WasStored(s, actions, d)
  {
    assert actions[..|actions|] == actions;
  }

  lemma StaysTrue(s: System, actions: seq<Action>, cl: Client)
    requires actions != [] && IsTrue(s, Init(actions), cl)
    ensures IsTrue(s, actions, cl)
  {
    hide WasStored, Exec, Step, Gate;
    forall d | WasStored(s, Init(actions), d) ensures WasStored(s, actions, d) {
      StaysStored(s, actions, d);
    }
    match cl.phase
    case Finished(NoOpenCall) =>
      var k :| 0 <= k <= |Init(actions)| && NoneOpen(Exec(s, Init(actions)[..k]).doc);
      assert Init(actions)[..k] == actions[..k];
    case Finished(Rejected(e)) =>
      if Gate(cl.caller, cl.op) != Some(e) {
        var snap, newId :| WasDecided(s, Init(actions), cl, snap, newId, Err(e));
        assert WasDecided(s, actions, cl, snap, newId, Err(e));
      }
    case Finished(Updated(d)) =>
      var snap, newId :| WasDecided(s, Init(actions), cl, snap, newId, Ok(d.call)) && d.version == snap.version + 1;
      assert WasDecided(s, actions, cl, snap, newId, Ok(d.call));
    case _ =>
  }

  lemma ReadIsTrue(s: System, actions: seq<Action>, i: nat)
    requires actions != [] && Last(actions) == Read(i) && Enabled(Exec(s, Init(actions)), Read(i))
    ensures IsTrue(s, actions, Exec(s, actions).clients[i])
  {
    var t, u := Exec(s, Init(actions)), Exec(s, actions);
    assert u.doc == t.doc;
    if NoneOpen(t.doc) {
      assert actions[..|actions|] == actions;
    } else {
      StoredNow(s, actions, t.doc.value);
    }
    hide Exec, WasStored;
  }

  /** The four ways a write can end. */
  lemma WriteEnds(t: System, i: nat, newId: string)
    requires Enabled(t, Write(i, newId))
    ensures var u, cl := Next(t, Write(i, newId)), t.clients[i];
      var snap, after := cl.phase.snapshot, u.clients[i];
      && after.caller == cl.caller && after.op == cl.op
      && match Step(snap.call, cl.caller, cl.op, newId)
         case Err(e) => after.phase == Finished(Rejected(e))
         case Ok(c) =>
           || (after.phase == Finished(Updated(Doc(c, snap.version + 1))) && u.doc == Some(Doc(c, snap.version + 1)))
           || after.phase == Ready || after.phase == Finished(GaveUp)
  {
    hide Step;
  }

  lemma WriteIsTrue(s: System, actions: seq<Action>, i: nat, newId: string)
    requires actions != [] && Last(actions) == Write(i, newId)
    requires Enabled(Exec(s, Init(actions)), Write(i, newId)) && IsTrue(s, Init(actions), Exec(s, Init(actions)).clients[i])
    ensures IsTrue(s, actions, Exec(s, actions).clients[i])
  {
    var t, u := Exec(s, Init(actions)), Exec(s, actions);
    var cl, snap := t.clients[i], t.clients[i].phase.snapshot;
    assert u == Next(t, Write(i, newId));
    WriteEnds(t, i, newId);
    StaysStored(s, actions, snap);
    hide Exec, WasStored, Step, FreshId, Next, Gate;
    assert WasDecided(s, actions, u.clients[i], snap, newId, Step(snap.call, cl.caller, cl.op, newId));
    match u.clients[i].phase
    case Finished(Updated(d)) => StoredNow(s, actions, d);
    case _ =>
  }

  /** Every answer is true of some moment of the run: an update replaced a stored open call by what the
      request makes of it and was stored itself, a rejection is the gate's or what a stored open call
      deserved, and without an open call none was open. */
  lemma {:induction false} AnswersAreTrue(s: System, actions: seq<Action>, i: nat)
    requires Initial(s) && i < |s.clients|
    ensures |Exec(s, actions).clients| == |s.clients| && IsTrue(s, actions, Exec(s, actions).clients[i])
  {
    if actions == [] {
      assert s.clients[i] == NewClient(s.clients[i].caller, s.clients[i].op);
    } else {
      AnswersAreTrue(s, Init(actions), i);
      var t, a := Exec(s, Init(actions)), Last(actions);
      StaysTrue(s, actions, t.clients[i]);
      if Enabled(t, a) {
        if a == Read(i) {
          ReadIsTrue(s, actions, i);
        } else if a.Write? && a.i == i {
          WriteIsTrue(s, actions, i, a.newId);
        } else {
          hide Step, FreshId;
          OnlyDisturbed(t, a, i);
          assert IsTrue(s, actions, Exec(s, actions).clients[i]);
        }
      }
    }
  }

  lemma OnlyDisturbed(s: System, a: Action, i: nat)
    requires Enabled(s, a) && i < |s.clients| && a != Read(i) && !(a.Write? && a.i == i)
    ensures var t := Next(s, a);
      && |t.clients| == |s.clients| && t.clients[i].phase == s.clients[i].phase
      && t.clients[i].caller == s.clients[i].caller && t.clients[i].op == s.clients[i].op
  {
    hide Step, FreshId;
  }

  // ---------------------------------------------------------------- giving up

  /** The write is refused although the request itself is accepted. */
  predicate Conflicts(s: System, a: Action, i: nat) {
    a.Write? && a.i == i && Enabled(s, a) && !Wrote(s.doc, s.clients[i], a.newId)
    && Step(s.clients[i].phase.snapshot.call, s.clients[i].caller, s.clients[i].op, a.newId).Ok?
  }

  function ConflictsOf(s: System, actions: seq<Action>, i: nat): nat {
    if actions == [] then 0
    else ConflictsOf(s, Init(actions), i) + if Conflicts(Exec(s, Init(actions)), Last(actions), i) then 1 else 0
  }

  /** A request under way has conflicted less than three times and read once more than it wrote, or as often. */
  predicate Counted(cl: Client, operations: nat, conflicts: nat) {
    match cl.phase
    case Ready => cl.attempt == conflicts < 3 && operations == 2 * conflicts
    case Loaded(_) => cl.attempt == conflicts < 3 && operations == 2 * conflicts + 1
    case Finished(GaveUp) => operations == 6 && conflicts == 3
    case Finished(_) => conflicts < 3
  }

  lemma OwnStepCounts(s: System, a: Action, i: nat, operations: nat, conflicts: nat)
    requires Enabled(s, a) && i < |s.clients| && ActsFor(a, i) && Counted(s.clients[i], operations, conflicts)
    ensures Counted(Next(s, a).clients[i], operations + 1, conflicts + if Conflicts(s, a, i) then 1 else 0)
  {
    hide Step, FreshId;
  }

  lemma OthersStepCounts(s: System, a: Action, i: nat, operations: nat, conflicts: nat)
    requires Enabled(s, a) && i < |s.clients| && !ActsFor(a, i) && Counted(s.clients[i], operations, conflicts)
    ensures |Next(s, a).clients| == |s.clients| && Counted(Next(s, a).clients[i], operations, conflicts) && !Conflicts(s, a, i)
  {
    hide Step, FreshId;
    OnlyDisturbed(s, a, i);
  }

  /** A request gives up exactly when its third accepted change met a conflict, after six operations. */
  lemma {:induction false} GivesUpAfterThreeConflicts(s: System, actions: seq<Action>, i: nat)
    requires Initial(s) && i < |s.clients|
    ensures var t := Exec(s, actions);
      && |t.clients| == |s.clients|
      && Counted(t.clients[i], Operations(s, actions, i), ConflictsOf(s, actions, i))
      && (t.clients[i].phase == Finished(GaveUp) <==> ConflictsOf(s, actions, i) == 3)
  {
    if actions == [] {
      assert s.clients[i] == NewClient(s.clients[i].caller, s.clients[i].op);
    } else {
      GivesUpAfterThreeConflicts(s, Init(actions), i);
      var t, a := Exec(s, Init(actions)), Last(actions);
      if Enabled(t, a) {
        if ActsFor(a, i) {
          OwnStepCounts(t, a, i, Operations(s, Init(actions), i), ConflictsOf(s, Init(actions), i));
        } else {
          OthersStepCounts(t, a, i, Operations(s, Init(actions), i), ConflictsOf(s, Init(actions), i));
        }
      }
      hide Step, FreshId, Wrote, Next, Enabled, Conflicts;
    }
  }
}
