/** The mutations of an initiative call: the closures and gates of internal/handler/initiative.go. */
module Tracker {
  import opened Seqs
  import opened TurnOrder
  import opened TurnOrderLaws

  datatype Caller = Caller(isDM: bool, playerId: string)

  datatype Op =
    | Submit(playerId: string, roll: int)
    | Enemy(participantId: string, name: string, roll: int)
    | EndTurn
    | ResortOrder
    | Skip(participantId: string, skipped: bool)
    | RemoveEnemy(participantId: string)

  datatype Rejection = BadRequest | Forbidden | NotFound

  /** The checks made before the call is loaded. */
  function Gate(caller: Caller, op: Op): Option<Rejection> {
    match op
    case Submit(playerId, _) =>
      if playerId == "" then Some(BadRequest)
      else if !caller.isDM && playerId != caller.playerId then Some(Forbidden)
      else None
    case Enemy(_, name, _) =>
      if !caller.isDM then Some(Forbidden) else if name == "" then Some(BadRequest) else None
    case EndTurn => None
    case _ => if !caller.isDM then Some(Forbidden) else None
  }

  // ---------------------------------------------------------------- what a mutation means

  function Rolled(p: Participant, roll: int, author: string): Participant {
    p.(initiative := Some(roll), submittedBy := author)
  }

  function SubmitFor(ps: seq<Participant>, playerId: string, roll: int, author: string): (r: seq<Participant>)
    ensures |r| == |ps|
  {
    seq(|ps|, i requires 0 <= i < |ps| =>
      if ps[i].playerId == playerId then Rolled(ps[i], roll, author) else ps[i])
  }

  /** The player of the last participant with this id, "" when there is none. */
  function PlayerOf(ps: seq<Participant>, id: string): string {
    if ps == [] then "" else if Last(ps).id == id then Last(ps).playerId else PlayerOf(Init(ps), id)
  }

  function RemoveId(ps: seq<Participant>, id: string): seq<Participant> {
    if ps == [] then [] else RemoveId(Init(ps), id) + (if Last(ps).id == id then [] else [Last(ps)])
  }

  /** The mutated call, before it is synchronised. `newId` is the id a new enemy would get. */
  function Mutate(c: Call, caller: Caller, op: Op, newId: string): Result<Call, Rejection> {
    var ps := c.participants;
    match op
    case Submit(playerId, roll) =>
      if forall p :: p in ps ==> p.playerId != playerId then Err(NotFound)
      else Ok(c.(participants := SubmitFor(ps, playerId, roll, caller.playerId)))
    case Enemy(id, name, roll) =>
      if id == "" then
        Ok(c.(participants := ps + [Participant(newId, EnemyType, name, Some(roll), "", false, caller.playerId)]))
      else if id !in Ids(ps) then Err(NotFound)
      else
        var i := IndexOf(Ids(ps), id);
        Ok(c.(participants := ps[i := Rolled(ps[i].(name := name), roll, caller.playerId)]))
    case EndTurn =>
      var o := Order(c);
      if o == [] then Err(BadRequest)
      else if !caller.isDM && (PlayerOf(ps, o[0]) == "" || PlayerOf(ps, o[0]) != caller.playerId) then Err(Forbidden)
      else Ok(c.(order := o[1..] + [o[0]], current := (o[1..] + [o[0]])[0], started := true))
    case ResortOrder => Ok(Resorted(c))
    case Skip(id, skipped) =>
      if id !in Ids(ps) then Err(NotFound)
      else
        var i := IndexOf(Ids(ps), id);
        Ok(c.(participants := ps[i := ps[i].(isSkipped := skipped)]))
    case RemoveEnemy(id) =>
      if exists p :: p in ps && p.id == id && p.kind != EnemyType then Err(BadRequest)
      else if id !in Ids(ps) then Err(NotFound)
      else Ok(c.(participants := RemoveId(ps, id), order := Without(c.order, {id}),
                 current := if c.current == id then "" else c.current))
  }

  /** A whole accepted request: mutate, then re-derive the turn state. */
  function Step(c: Call, caller: Caller, op: Op, newId: string): Result<Call, Rejection> {
    match Mutate(c, caller, op, newId)
    case Ok(d) => Ok(Sync(d))
    case Err(e) => Err(e)
  }

  // ---------------------------------------------------------------- the closures

  /** A closure either performs the mutation or rejects and leaves the call alone. */
  ghost predicate Performs(r: Option<Rejection>, m: Result<Call, Rejection>, before: Call, after: Call) {
    match m
    case Ok(d) => r == None && after == d
    case Err(e) => r == Some(e) && after == before
  }

  method SubmitRoll(c: InitiativeCall, caller: Caller, playerId: string, roll: int) returns (r: Option<Rejection>)
    modifies c
    ensures c.version == old(c.version)
    ensures Performs(r, Mutate(old(c.View()), caller, Submit(playerId, roll), ""), old(c.View()), c.View())
    ensures r == None <==> exists p :: p in old(c.participants) && p.playerId == playerId
    ensures r == None ==> |c.participants| == |old(c.participants)| && forall i :: 0 <= i < |c.participants| ==>
      if old(c.participants)[i].playerId == playerId
      then c.participants[i].initiative == Some(roll) && c.participants[i].submittedBy == caller.playerId
      else c.participants[i] == old(c.participants)[i]
  {
    ghost var ps := c.participants;
    var found := false;
    for i := 0 to |c.participants|
      invariant c.View() == old(c.View()).(participants := c.participants) && c.version == old(c.version)
      invariant |c.participants| == |ps|
      invariant forall k :: 0 <= k < i ==> c.participants[k] == SubmitFor(ps, playerId, roll, caller.playerId)[k]
      invariant forall k :: i <= k < |ps| ==> c.participants[k] == ps[k]
      invariant found <==> exists k :: 0 <= k < i && ps[k].playerId == playerId
      invariant !found ==> c.participants == ps
    {
      if c.participants[i].playerId == playerId {
        var p := c.participants[i];
        c.participants := c.participants[i := p.(initiative := Some(roll), submittedBy := caller.playerId)];
        found := true;
      }
    }
    if !found { return Some(NotFound); }
    assert c.participants == SubmitFor(ps, playerId, roll, caller.playerId);
    r := None;
  }

  predicate IsRoll(p: Participant, id: string, name: string, roll: int, author: Caller) {
    p.id == id && p.name == name && p.initiative == Some(roll) && p.submittedBy == author.playerId
  }

  method RollEnemy(c: InitiativeCall, caller: Caller, id: string, name: string, roll: int, newId: string)
    returns (r: Option<Rejection>)
    modifies c
    ensures c.version == old(c.version)
    ensures Performs(r, Mutate(old(c.View()), caller, Enemy(id, name, roll), newId), old(c.View()), c.View())
    ensures r == None ==> exists p :: p in c.participants && IsRoll(p, if id == "" then newId else id, name, roll, caller)
  {
    if id != "" {
      for i := 0 to |c.participants|
        invariant c.View() == old(c.View())
        invariant id !in Ids(c.participants[..i])
      {
        if c.participants[i].id == id {
          FirstWithId(c.participants, id, i);
          var p := c.participants[i];
          c.participants := c.participants[i := p.(name := name, initiative := Some(roll), submittedBy := caller.playerId)];
          assert c.participants[i] in c.participants;
          return None;
        }
        assert Ids(c.participants[..i + 1]) == Ids(c.participants[..i]) + [c.participants[i].id];
      }
      assert c.participants[..|c.participants|] == c.participants;
      return Some(NotFound);
    }
    ghost var n := |c.participants|;
    c.participants := c.participants + [Participant(newId, EnemyType, name, Some(roll), "", false, caller.playerId)];
    assert c.participants[n] in c.participants;
    r := None;
  }

  lemma FirstWithId(ps: seq<Participant>, id: string, i: nat)
    requires i < |ps| && ps[i].id == id && id !in Ids(ps[..i])
    ensures id in Ids(ps) && IndexOf(Ids(ps), id) == i
  {
    assert Ids(ps)[i] == id;
    assert Ids(ps)[..i] == Ids(ps[..i]);
    FirstIndex(Ids(ps), id, i);
  }

  method PassTurn(c: InitiativeCall, caller: Caller) returns (r: Option<Rejection>)
    modifies c
    ensures c.version == old(c.version)
    ensures Performs(r, Mutate(old(c.View()), caller, EndTurn, ""), old(c.View()), c.View())
  {
    hide Order, RemoveId, SubmitFor;
    var order := TurnOrderParticipantIDs(c);
    if |order| == 0 { return Some(BadRequest); }
    if !caller.isDM {
      var byID: map<string, Participant> := map[];
      for i := 0 to |c.participants|
        invariant PlayerOf(c.participants[..i], order[0]) == if order[0] in byID then byID[order[0]].playerId else ""
      {
        assert Init(c.participants[..i + 1]) == c.participants[..i];
        byID := byID[c.participants[i].id := c.participants[i]];
      }
      assert c.participants[..|c.participants|] == c.participants;
      var player := if order[0] in byID then byID[order[0]].playerId else "";
      if player == "" || player != caller.playerId { return Some(Forbidden); }
    }
    var next := order;
    if |order| > 1 {
      next := order[1..] + [order[0]];
    }
    c.order := next;
    c.current := next[0];
    c.started := true;
    r := None;
  }

  method SetSkipped(c: InitiativeCall, caller: Caller, id: string, skipped: bool) returns (r: Option<Rejection>)
    modifies c
    ensures c.version == old(c.version)
    ensures Performs(r, Mutate(old(c.View()), caller, Skip(id, skipped), ""), old(c.View()), c.View())
  {
    for i := 0 to |c.participants|
      invariant c.View() == old(c.View())
      invariant id !in Ids(c.participants[..i])
    {
      if c.participants[i].id == id {
        FirstWithId(c.participants, id, i);
        c.participants := c.participants[i := c.participants[i].(isSkipped := skipped)];
        return None;
      }
      assert Ids(c.participants[..i + 1]) == Ids(c.participants[..i]) + [c.participants[i].id];
    }
    assert c.participants[..|c.participants|] == c.participants;
    r := Some(NotFound);
  }

  /** The participants without `id`, unless a player would go. */
  method DropFrom(ps: seq<Participant>, id: string) returns (r: Option<Rejection>, next: seq<Participant>)
    ensures r == (if exists p :: p in ps && p.id == id && p.kind != EnemyType then Some(BadRequest)
                  else if id !in Ids(ps) then Some(NotFound) else None)
    ensures r == None ==> next == RemoveId(ps, id)
  {
    next := [];
    var found := false;
    for i := 0 to |ps|
      invariant next == RemoveId(ps[..i], id)
      invariant found <==> id in Ids(ps[..i])
      invariant forall k :: 0 <= k < i && ps[k].id == id ==> ps[k].kind == EnemyType
    {
      assert Init(ps[..i + 1]) == ps[..i];
      assert Ids(ps[..i + 1]) == Ids(ps[..i]) + [ps[i].id];
      if ps[i].id == id {
        if ps[i].kind != EnemyType { return Some(BadRequest), next; }
        found := true;
        continue;
      }
      next := next + [ps[i]];
    }
    assert ps[..|ps|] == ps;
    r := if found then None else Some(NotFound);
  }

  method DropId(ids: seq<string>, id: string) returns (order: seq<string>)
    ensures order == Without(ids, {id})
  {
    order := [];
    for i := 0 to |ids|
      invariant order == Without(ids[..i], {id})
    {
      assert Init(ids[..i + 1]) == ids[..i];
      if ids[i] != id {
        order := order + [ids[i]];
      }
    }
    assert ids[..|ids|] == ids;
  }

  method DropEnemy(c: InitiativeCall, caller: Caller, id: string) returns (r: Option<Rejection>)
    modifies c
    ensures c.version == old(c.version)
    ensures Performs(r, Mutate(old(c.View()), caller, RemoveEnemy(id), ""), old(c.View()), c.View())
  {
    var next;
    r, next := DropFrom(c.participants, id);
    if r != None { return; }
    c.participants := next;
    c.order := DropId(c.order, id);
    if c.current == id {
      c.current := "";
    }
  }

  /** The closure a handler passes to mutateWithRetry. */
  method MutateCall(c: InitiativeCall, caller: Caller, op: Op, newId: string) returns (r: Option<Rejection>)
    modifies c
    ensures c.version == old(c.version)
    ensures Performs(r, Mutate(old(c.View()), caller, op, newId), old(c.View()), c.View())
  {
    match op
    case Submit(playerId, roll) => r := SubmitRoll(c, caller, playerId, roll);
    case Enemy(id, name, roll) => r := RollEnemy(c, caller, id, name, roll, newId);
    case EndTurn => r := PassTurn(c, caller);
    case ResortOrder => Resort(c); r := None;
    case Skip(id, skipped) => r := SetSkipped(c, caller, id, skipped);
    case RemoveEnemy(id) => r := DropEnemy(c, caller, id);
  }

  // ---------------------------------------------------------------- starting a call

  datatype PlayerKind = PC | NPC | RosterEnemy | DM

  datatype RosterEntry = RosterEntry(id: string, name: string, kind: PlayerKind)

  function Combatant(e: RosterEntry): Participant {
    if e.kind == PC then Participant("player-" + e.id, PlayerType, e.name, None, e.id, false, "")
    else Participant("enemy-" + e.id, EnemyType, e.name, None, "", false, "")
  }

  function Combatants(roster: seq<RosterEntry>): seq<Participant> {
    if roster == [] then []
    else Combatants(Init(roster)) + (if Last(roster).kind == DM then [] else [Combatant(Last(roster))])
  }

  function StartedCall(id: string, roster: seq<RosterEntry>): Call {
    Call(id, Open, Combatants(roster), [], "", false)
  }

  method Start(id: string, roster: seq<RosterEntry>) returns (c: InitiativeCall)
    ensures fresh(c) && c.View() == StartedCall(id, roster) && c.version == 1
  {
    var participants: seq<Participant> := [];
    for i := 0 to |roster|
      invariant participants == Combatants(roster[..i])
    {
      assert Init(roster[..i + 1]) == roster[..i];
      var p := roster[i];
      match p.kind
      case PC => participants := participants + [Participant("player-" + p.id, PlayerType, p.name, None, p.id, false, "")];
      case NPC => participants := participants + [Participant("enemy-" + p.id, EnemyType, p.name, None, "", false, "")];
      case RosterEnemy => participants := participants + [Participant("enemy-" + p.id, EnemyType, p.name, None, "", false, "")];
      case DM =>
    }
    assert roster[..|roster|] == roster;
    c := new InitiativeCall(Call(id, Open, participants, [], "", false), 1);
  }

  lemma {:induction false} CombatantsFrom(roster: seq<RosterEntry>)
    ensures forall p :: p in Combatants(roster) ==> exists e :: e in roster && p == Combatant(e)
  {
    if roster != [] {
      assert roster == Init(roster) + [Last(roster)];
      CombatantsFrom(Init(roster));
      forall p | p in Combatants(roster) ensures exists e :: e in roster && p == Combatant(e) {
        if p !in Combatants(Init(roster)) {
          assert p == Combatant(Last(roster));
        } else {
          var e :| e in Init(roster) && p == Combatant(e);
          assert e in roster;
        }
      }
    }
  }

  lemma CombatantIdInjective(e: RosterEntry, f: RosterEntry)
    requires Combatant(e).id == Combatant(f).id
    ensures e.id == f.id
  {
    var s, t := Combatant(e).id, Combatant(f).id;
    assert "player-"[0] != "enemy-"[0];
    assert e.kind == PC ==> s[0] == 'p' && s[7..] == e.id;
    assert f.kind == PC ==> t[0] == 'p' && t[7..] == f.id;
    assert e.kind != PC ==> s[0] == 'e' && s[6..] == e.id;
    assert f.kind != PC ==> t[0] == 'e' && t[6..] == f.id;
  }

  lemma {:induction false} CombatantsValid(roster: seq<RosterEntry>)
    requires forall i, j :: 0 <= i < j < |roster| ==> roster[i].id != roster[j].id
    ensures DistinctIds(Combatants(roster)) && Submitted(Combatants(roster)) == []
  {
    if roster != [] && Last(roster).kind == DM {
      CombatantsValid(Init(roster));
      assert Combatants(roster) == Combatants(Init(roster));
    } else if roster != [] {
      var ps, p := Combatants(Init(roster)), Combatant(Last(roster));
      CombatantsValid(Init(roster));
      assert Init(ps + [p]) == ps;
      assert Ids(ps + [p]) == Ids(ps) + [p.id];
      if p.id in Ids(ps) {
        InIds(ps, p.id);
        CombatantsFrom(Init(roster));
        var q :| q in ps && q.id == p.id;
        var e :| e in Init(roster) && q == Combatant(e);
        CombatantIdInjective(e, Last(roster));
      }
      NoDupSnoc(Ids(ps), p.id);
    }
  }

  /** A freshly started call satisfies the invariant, for any roster with distinct player ids. */
  lemma StartIsValid(id: string, roster: seq<RosterEntry>)
    requires forall i, j :: 0 <= i < j < |roster| ==> roster[i].id != roster[j].id
    ensures Valid(StartedCall(id, roster))
  {
    CombatantsValid(roster);
    SortedIdsElems(Combatants(roster));
  }
}
