/** What each request leaves of a call, field by field, and what the numbers mean for the order. */
module TrackerEffects {
  import opened Seqs
  import opened TurnOrder
  import opened TurnOrderLaws
  import opened Tracker
  import opened TrackerLaws

  // ---------------------------------------------------------------- who gets through

  /** The DM may do anything, players may roll for themselves and end a turn; a roll needs a player, an
      enemy a name. */
  lemma GateLetsThrough(caller: Caller, op: Op)
    ensures Gate(caller, op) == None <==>
      && (caller.isDM || op.EndTurn? || (op.Submit? && op.playerId == caller.playerId))
      && (op.Submit? ==> op.playerId != "") && (op.Enemy? ==> op.name != "")
    ensures Gate(caller, op) == Some(Forbidden) <==>
      !caller.isDM && !op.EndTurn? && (op.Submit? ==> op.playerId != "" && op.playerId != caller.playerId)
    ensures Gate(caller, op) != Some(NotFound)
  {
  }

  // ---------------------------------------------------------------- participants

  /** Only number, author and, for an enemy, the name differ. */
  predicate SameButRoll(p: Participant, q: Participant) {
    && q.id == p.id && q.kind == p.kind && q.playerId == p.playerId && q.isSkipped == p.isSkipped
  }

  /** The call is the same apart from participants and turn order. */
  predicate SameCall(c: Call, d: Call) {
    d.id == c.id && d.status == c.status && d.started == c.started
  }

  /** A roll is accepted exactly if the player takes part; every participant of the player then has the
      number and the caller as author, and nobody else changes. */
  lemma SubmitIsStored(c: Call, caller: Caller, playerId: string, roll: int, newId: string)
    ensures var r := Step(c, caller, Submit(playerId, roll), newId);
      if exists p :: p in c.participants && p.playerId == playerId then
        && r.Ok? && SameCall(c, r.value) && |r.value.participants| == |c.participants|
        && forall i :: 0 <= i < |c.participants| ==>
             var p, q := c.participants[i], r.value.participants[i];
             if p.playerId == playerId then
               SameButRoll(p, q) && q.name == p.name && q.initiative == Some(roll) && q.submittedBy == caller.playerId
             else q == p
      else r == Err(NotFound)
  {
    hide Order;
  }

  /** A roll for a named enemy changes the first participant with that id; without an id one enemy joins at
      the end; for an unknown id nothing happens. */
  lemma EnemyIsStored(c: Call, caller: Caller, id: string, name: string, roll: int, newId: string)
    ensures var r, ps := Step(c, caller, Enemy(id, name, roll), newId), c.participants;
      if id == "" then
        && r.Ok? && SameCall(c, r.value) && |r.value.participants| == |ps| + 1 && r.value.participants[..|ps|] == ps
        && r.value.participants[|ps|] == Participant(newId, EnemyType, name, Some(roll), "", false, caller.playerId)
      else if exists p :: p in ps && p.id == id then
        && r.Ok? && SameCall(c, r.value) && |r.value.participants| == |ps|
        && exists i :: FirstNamed(ps, id, i) && OnlyChanges(ps, r.value.participants, i)
             && SameButRoll(ps[i], r.value.participants[i]) && r.value.participants[i].name == name
             && r.value.participants[i].initiative == Some(roll) && r.value.participants[i].submittedBy == caller.playerId
      else r == Err(NotFound)
  {
    hide Order;
    InIds(c.participants, id);
    if id != "" && id in Ids(c.participants) { FoundFirst(c.participants, id); }
  }

  predicate FirstNamed(ps: seq<Participant>, id: string, i: int) {
    0 <= i < |ps| && ps[i].id == id && forall k :: 0 <= k < i ==> ps[k].id != id
  }

  predicate OnlyChanges(ps: seq<Participant>, qs: seq<Participant>, i: int) {
    |qs| == |ps| && forall k :: 0 <= k < |ps| && k != i ==> qs[k] == ps[k]
  }

  lemma FoundFirst(ps: seq<Participant>, id: string)
    requires id in Ids(ps)
    ensures FirstNamed(ps, id, IndexOf(Ids(ps), id))
  {
    var i := IndexOf(Ids(ps), id);
    assert Ids(ps)[i] == id;
    forall k | 0 <= k < i ensures ps[k].id != id {
      assert Ids(ps)[..i][k] == ps[k].id;
    }
  }

  /** Skipping or resuming sets the flag of the first participant with the id and nothing else. */
  lemma SkipIsStored(c: Call, caller: Caller, id: string, skipped: bool, newId: string)
    ensures var r, ps := Step(c, caller, Skip(id, skipped), newId), c.participants;
      if exists p :: p in ps && p.id == id then
        && r.Ok? && SameCall(c, r.value) && |r.value.participants| == |ps|
        && exists i :: FirstNamed(ps, id, i) && OnlyChanges(ps, r.value.participants, i)
             && r.value.participants[i].isSkipped == skipped
             && r.value.participants[i] == ps[i].(isSkipped := r.value.participants[i].isSkipped)
      else r == Err(NotFound)
  {
    hide Order;
    InIds(c.participants, id);
    if id in Ids(c.participants) { FoundFirst(c.participants, id); }
  }

  /** A removal takes out exactly the enemy with the id; players cannot be removed. */
  lemma EnemyIsRemoved(c: Call, caller: Caller, id: string, newId: string)
    requires NoDup(Ids(c.participants))
    ensures var r, ps := Step(c, caller, RemoveEnemy(id), newId), c.participants;
      if exists p :: p in ps && p.id == id then
        if exists p :: p in ps && p.id == id && p.kind == EnemyType then
          && r.Ok? && SameCall(c, r.value)
          && exists k :: 0 <= k < |ps| && ps[k].id == id && r.value.participants == ps[..k] + ps[k + 1..]
        else r == Err(BadRequest)
      else r == Err(NotFound)
  {
    hide Order;
    var ps := c.participants;
    InIds(ps, id);
    if p :| p in ps && p.id == id {
      var k :| 0 <= k < |ps| && ps[k] == p;
      OnlyOneNamed(ps, k);
      RemovedAt(ps, k);
    }
  }

  lemma OnlyOneNamed(ps: seq<Participant>, k: nat)
    requires NoDup(Ids(ps)) && k < |ps|
    ensures forall p :: p in ps && p.id == ps[k].id ==> p == ps[k]
  {
    forall p | p in ps && p.id == ps[k].id ensures p == ps[k] {
      var j :| 0 <= j < |ps| && ps[j] == p;
      assert Ids(ps)[j] == Ids(ps)[k];
    }
  }

  lemma {:induction false} RemovedAt(ps: seq<Participant>, k: nat)
    requires NoDup(Ids(ps)) && k < |ps|
    ensures RemoveId(ps, ps[k].id) == ps[..k] + ps[k + 1..]
  {
    var id, n := ps[k].id, |ps| - 1;
    assert Ids(ps) == Ids(Init(ps)) + [Last(ps).id];
    NoDupSnoc(Ids(Init(ps)), Last(ps).id);
    if k == n {
      NobodyRemoved(Init(ps), id);
      assert ps[..k] == Init(ps);
    } else {
      assert Ids(ps)[k] != Ids(ps)[n];
      RemovedAt(Init(ps), k);
      assert Init(ps)[..k] == ps[..k] && Init(ps)[k + 1..] + [Last(ps)] == ps[k + 1..];
    }
  }

  lemma {:induction false} NobodyRemoved(ps: seq<Participant>, id: string)
    requires id !in Ids(ps)
    ensures RemoveId(ps, id) == ps
  {
    if ps != [] {
      assert Ids(ps) == Ids(Init(ps)) + [Last(ps).id];
      assert Ids(ps)[|ps| - 1] == Last(ps).id;
      NobodyRemoved(Init(ps), id);
      assert ps == Init(ps) + [Last(ps)];
    }
  }

  // ---------------------------------------------------------------- what the numbers mean

  /** Alphabetical order: the first difference decides, a prefix comes first. */
  predicate Alphabetical(s: string, t: string) {
    exists k :: 0 <= k <= |s| && k <= |t| && s[..k] == t[..k] && k < |t| && (k == |s| || s[k] < t[k])
  }

  lemma {:induction false} NameLessIsAlphabetical(s: string, t: string)
    ensures NameLess(s, t) <==> Alphabetical(s, t)
  {
    if s != [] && t != [] && s[0] == t[0] {
      NameLessIsAlphabetical(s[1..], t[1..]);
      if Alphabetical(s[1..], t[1..]) {
        var k :| 0 <= k <= |s[1..]| && k <= |t[1..]| && s[1..][..k] == t[1..][..k] && k < |t[1..]| && (k == |s[1..]| || s[1..][k] < t[1..][k]);
        assert s[..k + 1] == [s[0]] + s[1..][..k] && t[..k + 1] == [t[0]] + t[1..][..k];
      }
      if Alphabetical(s, t) {
        var k :| 0 <= k <= |s| && k <= |t| && s[..k] == t[..k] && k < |t| && (k == |s| || s[k] < t[k]);
        assert k > 0;
        assert s[1..][..k - 1] == s[..k][1..] && t[1..][..k - 1] == t[..k][1..];
      }
    } else if s == [] && t != [] {
      assert s[..0] == t[..0];
    } else if s != [] && t != [] {
      assert s[..0] == t[..0];
      if Alphabetical(s, t) {
        var k :| 0 <= k <= |s| && k <= |t| && s[..k] == t[..k] && k < |t| && (k == |s| || s[k] < t[k]);
        if k > 0 { FirstsAgree(s, t, k); }
      }
    }
  }

  lemma FirstsAgree(s: string, t: string, k: nat)
    requires 0 < k <= |s| && k <= |t| && s[..k] == t[..k]
    ensures s[0] == t[0]
  {
    assert s[0] == s[..k][0] && t[0] == t[..k][0];
  }

  /** u has rolled and is in; so has v; and u rolled more, or the same with the smaller name, or the same
      under the same name and was listed first. */
  predicate ActsBefore(ps: seq<Participant>, u: Participant, v: Participant) {
    && u.initiative.Some? && v.initiative.Some? && !u.isSkipped && !v.isSkipped
    && var a, b := u.initiative.value, v.initiative.value;
    (a > b || (a == b && Alphabetical(u.name, v.name)) || (a == b && u.name == v.name && Before(ps, u, v)))
  }

  lemma {:induction false} SubmittedIsKeep(ps: seq<Participant>, keep: set<Participant>)
    requires forall p :: p in ps ==> (p in keep <==> InCycle(p))
    ensures Submitted(ps) == Keep(ps, keep)
  {
    if ps != [] {
      assert ps == Init(ps) + [Last(ps)];
      SubmittedIsKeep(Init(ps), keep);
    }
  }

  lemma BeforeAmongSubmitted(ps: seq<Participant>, u: Participant, v: Participant)
    requires u in ps && v in ps && InCycle(u) && InCycle(v)
    ensures Before(Submitted(ps), u, v) <==> Before(ps, u, v)
  {
    var keep := set p | p in ps && InCycle(p);
    SubmittedIsKeep(ps, keep);
    if Before(ps, u, v) { KeepBefore(ps, keep, u, v); }
    if Before(Submitted(ps), u, v) { BeforeInKeep(ps, keep, u, v); }
  }

  lemma BeforeByIds(ps: seq<Participant>, u: Participant, v: Participant)
    requires NoDup(Ids(ps)) && u in ps && v in ps
    ensures Before(Ids(ps), u.id, v.id) <==> Before(ps, u, v)
  {
    var i :| 0 <= i < |ps| && ps[i] == u;
    var j :| 0 <= j < |ps| && ps[j] == v;
    assert Ids(ps)[i] == u.id && Ids(ps)[j] == v.id;
    if Before(Ids(ps), u.id, v.id) {
      var a, b :| 0 <= a < b < |ps| && Ids(ps)[a] == u.id && Ids(ps)[b] == v.id;
      assert a == i && b == j;
    }
    if Before(ps, u, v) {
      var a, b :| 0 <= a < b < |ps| && ps[a] == u && ps[b] == v;
      assert Ids(ps)[a] == u.id && Ids(ps)[b] == v.id;
    }
  }

  /** Plain initiative order: of two participants the one who acts first by the numbers comes first, and
      nobody is listed who has not rolled or sits out. */
  lemma SortedByTheNumbers(ps: seq<Participant>, u: Participant, v: Participant)
    requires NoDup(Ids(ps)) && u in ps && v in ps && u != v
    ensures Before(SortedIds(ps), u.id, v.id) <==> ActsBefore(ps, u, v)
    ensures u.id in SortedIds(ps) <==> u.initiative.Some? && !u.isSkipped
  {
    var sub := Submitted(ps);
    SubmittedElems(ps);
    SortElems(sub);
    SubmittedIds(ps);
    SortIds(sub);
    ListedIfInCycle(ps, u);
    ListedIfInCycle(ps, v);
    if InCycle(u) && InCycle(v) {
      BeforeByIds(StableSort(sub), u, v);
      SortPutsBefore(sub, u, v);
      BeforeAmongSubmitted(ps, u, v);
      NameLessTotal(u.name, v.name);
      NameLessIsAlphabetical(u.name, v.name);
    }
  }

  lemma ListedIfInCycle(ps: seq<Participant>, u: Participant)
    requires NoDup(Ids(ps)) && u in ps
    ensures u.id in SortedIds(ps) <==> u.initiative.Some? && !u.isSkipped
  {
    SortedIdsElems(ps);
    assert u.id in SortedIds(ps) <==> u.id in Elems(SortedIds(ps));
    if u.id in CycleIds(ps) {
      var p :| p in ps && InCycle(p) && p.id == u.id;
      var k :| 0 <= k < |ps| && ps[k] == p;
      OnlyOneNamed(ps, k);
    }
  }

  /** Before the cycle starts the stored order goes by the numbers. */
  lemma HigherNumberActsFirst(c: Call, u: Participant, v: Participant)
    requires Valid(c) && !c.started && u in c.participants && v in c.participants && u != v
    ensures Before(c.order, u.id, v.id) <==> ActsBefore(c.participants, u, v)
    ensures u.id in c.order <==> u.initiative.Some? && !u.isSkipped
  {
    SortedByTheNumbers(c.participants, u, v);
  }

  // ---------------------------------------------------------------- starting

  /** Everybody on the roster but the DM, in its order. */
  predicate Enters(e: RosterEntry, p: Participant) {
    && p.name == e.name && p.initiative == None && !p.isSkipped && p.submittedBy == ""
    && (if e.kind == PC then p.id == "player-" + e.id && p.kind == PlayerType && p.playerId == e.id
        else p.id == "enemy-" + e.id && p.kind == EnemyType && p.playerId == "")
  }

  /** A started call lists the roster without the DM, in order, with nothing rolled and nobody's turn. */
  lemma {:induction false} StartListsTheRoster(id: string, roster: seq<RosterEntry>, playing: set<RosterEntry>)
    requires forall e :: e in roster ==> (e in playing <==> e.kind != DM)
    ensures var c, es := StartedCall(id, roster), Keep(roster, playing);
      && c.id == id && c.status == Open && c.order == [] && c.current == "" && !c.started
      && |c.participants| == |es| && forall i :: 0 <= i < |es| ==> Enters(es[i], c.participants[i])
  {
    if roster != [] {
      assert roster == Init(roster) + [Last(roster)];
      StartListsTheRoster(id, Init(roster), playing);
    }
  }
}
