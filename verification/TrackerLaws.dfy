/** What each request does to the turn order, and the invariant all requests keep. */
module TrackerLaws {
  import opened Seqs
  import opened TurnOrder
  import opened TurnOrderLaws
  import opened Tracker

  // ---------------------------------------------------------------- the invariant

  /** A generated id is new and not empty. */
  predicate FreshId(c: Call, newId: string) {
    newId != "" && newId !in Ids(c.participants)
  }

  lemma {:induction false} RemoveIdIds(ps: seq<Participant>, id: string)
    ensures Ids(RemoveId(ps, id)) == Without(Ids(ps), {id})
  {
    if ps != [] {
      RemoveIdIds(Init(ps), id);
      assert Init(Ids(ps)) == Ids(Init(ps));
      assert Last(ps).id != id ==> Ids(RemoveId(ps, id)) == Ids(RemoveId(Init(ps), id)) + [Last(ps).id];
    }
  }

  /** No request invents or duplicates an id, and none leaves a repetition in the frozen order. */
  lemma MutateKeepsIds(c: Call, caller: Caller, op: Op, newId: string)
    requires Valid(c) && FreshId(c, newId) && Mutate(c, caller, op, newId).Ok?
    ensures var d := Mutate(c, caller, op, newId).value;
      d.status == Open && DistinctIds(d.participants) && NoDup(d.order)
  {
    hide Order, Sync, SortedIds, CycleIds;
    var ps, d := c.participants, Mutate(c, caller, op, newId).value;
    match op
    case Submit(playerId, roll) =>
      assert Ids(d.participants) == Ids(ps);
    case Enemy(id, name, roll) =>
      if id == "" {
        assert Ids(d.participants) == Ids(ps) + [newId];
        NoDupSnoc(Ids(ps), newId);
      } else {
        assert Ids(d.participants) == Ids(ps);
      }
    case EndTurn =>
      ValidIsSynced(c);
      NoDupSnoc(c.order[1..], c.order[0]);
    case ResortOrder =>
    case Skip(id, skipped) =>
      assert Ids(d.participants) == Ids(ps);
    case RemoveEnemy(id) =>
      RemoveIdIds(ps, id);
      WithoutNoDup(Ids(ps), {id});
      WithoutNoDup(c.order, {id});
  }

  /** Every accepted request keeps the invariant of a stored call. */
  lemma StepKeepsValid(c: Call, caller: Caller, op: Op, newId: string)
    requires Valid(c) && FreshId(c, newId) && Step(c, caller, op, newId).Ok?
    ensures Valid(Step(c, caller, op, newId).value)
  {
    MutateKeepsIds(c, caller, op, newId);
    SyncRestores(Mutate(c, caller, op, newId).value);
  }

  // ---------------------------------------------------------------- end of turn

  /** The call with the turn passed on. */
  function Passed(c: Call): Call
    requires c.order != []
  {
    c.(order := c.order[1..] + [c.order[0]], current := Head(c.order[1..] + [c.order[0]]), started := true)
  }

  lemma PassedIsSynced(c: Call)
    requires Valid(c) && c.order != []
    ensures Sync(Passed(c)) == Passed(c)
  {
    var d := Passed(c);
    SortedIdsElems(c.participants);
    assert c.order == [c.order[0]] + c.order[1..];
    assert Elems(d.order) == Elems(c.order);
    MergeSame(d.order, SortedIds(c.participants));
    HeadStays(d.order);
  }

  /** Ending a turn sends the acting participant to the back and changes nothing else. */
  lemma EndTurnRotates(c: Call, caller: Caller, newId: string)
    requires Valid(c) && Step(c, caller, EndTurn, newId).Ok?
    ensures c.order != [] && Step(c, caller, EndTurn, newId).value == Passed(c)
  {
    hide Order, Sync;
    ValidIsSynced(c);
    PassedIsSynced(c);
  }

  /** Who may end a turn: the DM, or the player of the acting participant, if there is one. */
  lemma EndTurnAllowed(c: Call, caller: Caller, newId: string)
    requires Valid(c)
    ensures Step(c, caller, EndTurn, newId).Ok?
      <==> c.order != []
           && (caller.isDM
               || (caller.playerId != ""
                   && exists p :: p in c.participants && p.id == c.current && p.playerId == caller.playerId))
    ensures Step(c, caller, EndTurn, newId) == Err(BadRequest) <==> c.order == []
    ensures Step(c, caller, EndTurn, newId).Err? && c.order != [] ==> Step(c, caller, EndTurn, newId) == Err(Forbidden)
  {
    ValidIsSynced(c);
    if c.order != [] {
      PlayerOfUnique(c.participants, c.current);
      assert c.current in Elems(c.order);
      var p :| p in c.participants && InCycle(p) && p.id == c.current;
      assert PlayerOf(c.participants, c.current) == p.playerId;
    }
  }

  lemma {:induction false} PlayerOfUnique(ps: seq<Participant>, id: string)
    requires NoDup(Ids(ps))
    ensures forall p :: p in ps && p.id == id ==> PlayerOf(ps, id) == p.playerId
  {
    if ps != [] {
      assert ps == Init(ps) + [Last(ps)];
      assert Ids(ps) == Ids(Init(ps)) + [Last(ps).id];
      NoDupSnoc(Ids(Init(ps)), Last(ps).id);
      InIds(Init(ps), Last(ps).id);
      PlayerOfUnique(Init(ps), id);
    }
  }

  // ---------------------------------------------------------------- joining and leaving

  /** In a running cycle every request except end-turn and resort keeps the survivors in order,
      drops those who left the cycle and appends those who entered it. */
  lemma RunningOrderEvolves(c: Call, caller: Caller, op: Op, newId: string)
    requires Valid(c) && c.started && FreshId(c, newId)
    requires op != EndTurn && op != ResortOrder && Step(c, caller, op, newId).Ok?
    ensures var d := Step(c, caller, op, newId).value;
      && d.started
      && d.order == Keep(c.order, CycleIds(d.participants)) + Without(SortedIds(d.participants), Elems(c.order))
  {
    hide Order, SortedIds;
    var d := Mutate(c, caller, op, newId).value;
    if op.RemoveEnemy? {
      RemoveIdIds(c.participants, op.participantId);
      InIds(d.participants, op.participantId);
    }
    StartedSync(c, d);
  }

  /** The request takes `id`, and nobody else, out of the cycle. */
  predicate TakesOut(op: Op, id: string) {
    op == Skip(id, true) || op == RemoveEnemy(id)
  }

  /** Ids in the cycle after one participant is skipped or removed. */
  lemma LeaverCycle(c: Call, caller: Caller, op: Op, id: string, newId: string)
    requires Valid(c) && TakesOut(op, id) && Mutate(c, caller, op, newId).Ok?
    ensures CycleIds(Mutate(c, caller, op, newId).value.participants) == CycleIds(c.participants) - {id}
  {
    var ps, qs := c.participants, Mutate(c, caller, op, newId).value.participants;
    if op.Skip? {
      var i := IndexOf(Ids(ps), id);
      assert ps[i].id == id;
      forall k | 0 <= k < |ps| && k != i ensures ps[k].id != id && qs[k] == ps[k] {
        assert Ids(ps)[k] != Ids(ps)[i];
      }
      assert forall p :: p in ps && p.id != id ==> p in qs;
      assert forall p :: p in qs ==> p == qs[i] || (p in ps && p.id != id);
    } else {
      RemoveIdElems(ps, id);
    }
  }

  lemma {:induction false} RemoveIdElems(ps: seq<Participant>, id: string)
    ensures forall p :: p in RemoveId(ps, id) <==> p in ps && p.id != id
  {
    if ps != [] {
      assert ps == Init(ps) + [Last(ps)];
      RemoveIdElems(Init(ps), id);
    }
  }

  /** Skipping or removing someone only deletes them from the running order: the acting participant
      stays, unless it is the one who left, and then the turn passes to its successor. */
  lemma LeavingKeepsTheRest(c: Call, caller: Caller, op: Op, id: string, newId: string)
    requires Valid(c) && c.started && FreshId(c, newId) && TakesOut(op, id) && Step(c, caller, op, newId).Ok?
    ensures var d := Step(c, caller, op, newId).value;
      && d.order == Without(c.order, {id})
      && (c.current != id ==> d.current == c.current)
      && (c.current == id && c.order != [] ==> d.current == Head(c.order[1..]))
  {
    var d := Step(c, caller, op, newId).value;
    RunningOrderEvolves(c, caller, op, newId);
    LeaverCycle(c, caller, op, id, newId);
    SortedIdsElems(d.participants);
    assert forall x :: x in SortedIds(d.participants) <==> x in Elems(SortedIds(d.participants));
    assert forall x :: x in c.order <==> x in Elems(c.order);
    Exhausted(Without(SortedIds(d.participants), Elems(c.order)));
    KeepIsWithout(c.order, CycleIds(d.participants), id);
    if c.order != [] {
      WithoutHead(c.order, id);
    }
  }

  lemma {:induction false} KeepIsWithout(s: seq<string>, keep: set<string>, id: string)
    requires forall x :: x in s ==> (x in keep <==> x != id)
    ensures Keep(s, keep) == Without(s, {id})
  {
    if s != [] {
      assert s == Init(s) + [Last(s)];
      KeepIsWithout(Init(s), keep, id);
    }
  }

  lemma {:induction false} WithoutHead(s: seq<string>, id: string)
    requires s != [] && NoDup(s)
    ensures s[0] == id ==> Without(s, {id}) == s[1..]
    ensures s[0] != id ==> Without(s, {id}) != [] && Without(s, {id})[0] == s[0]
  {
    if |s| > 1 {
      WithoutHead(Init(s), id);
      assert Init(s)[1..] + [Last(s)] == s[1..];
    }
  }

  /** A participant that newly enters the running cycle goes to the very end. */
  lemma JoiningGoesLast(c: Call, caller: Caller, op: Op, id: string, newId: string)
    requires Valid(c) && c.started && FreshId(c, newId)
    requires op != EndTurn && op != ResortOrder && Step(c, caller, op, newId).Ok?
    requires CycleIds(Step(c, caller, op, newId).value.participants) == CycleIds(c.participants) + {id}
    requires id !in c.order
    ensures Step(c, caller, op, newId).value.order == c.order + [id]
  {
    var d := Step(c, caller, op, newId).value;
    RunningOrderEvolves(c, caller, op, newId);
    assert forall x :: x in c.order <==> x in Elems(c.order);
    KeepAll(c.order, CycleIds(d.participants));
    MutateKeepsIds(c, caller, op, newId);
    SortedIdsElems(d.participants);
    SortedIdsNoDup(d.participants);
    var sorted := SortedIds(d.participants);
    assert forall x :: x in sorted <==> x in Elems(sorted);
    WithoutNoDup(sorted, Elems(c.order));
    OnlyOne(Without(sorted, Elems(c.order)), id);
  }

  // ---------------------------------------------------------------- resort

  predicate IsRotation(s: seq<string>, t: seq<string>) {
    exists k :: 0 <= k <= |s| && t == s[k..] + s[..k]
  }

  lemma RotateIsRotation(s: seq<string>, active: string)
    ensures IsRotation(s, Rotate(s, active))
  {
    if active == "" || active !in s {
      assert s == s[0..] + s[..0];
    }
  }

  lemma MergeFromNothing(sorted: seq<string>)
    ensures Merge([], sorted) == sorted
  {
    WithoutNone(sorted, Elems([]));
  }

  lemma CurrentIsListed(c: Call)
    requires Valid(c) && c.order != []
    ensures c.current != "" && c.current in SortedIds(c.participants)
  {
    assert c.current in Elems(c.order);
    SortedIdsElems(c.participants);
    assert c.current in Elems(SortedIds(c.participants));
    var p :| p in c.participants && p.id == c.current;
    InIds(c.participants, c.current);
  }

  /** A resort in a running cycle is the plain initiative order turned to the acting participant,
      whose turn it keeps. */
  lemma ResortTurnsTheSort(c: Call, caller: Caller, newId: string)
    requires Valid(c) && c.started
    ensures Step(c, caller, ResortOrder, newId).Ok?
    ensures var d := Step(c, caller, ResortOrder, newId).value;
      && IsRotation(SortedIds(c.participants), d.order)
      && d.current == c.current == Head(d.order)
      && d == c.(order := d.order)
  {
    hide SortedIds, IsRotation, Merge, Rotate, IndexOf, CycleIds;
    var sorted := SortedIds(c.participants);
    MergeFromNothing(sorted);
    RotateIsRotation(sorted, c.current);
    if c.order == [] {
      SortedIdsElems(c.participants);
      assert Elems(sorted) == Elems(c.order);
      assert forall x :: x in sorted ==> x in Elems(sorted);
      Exhausted(sorted);
      RotateElems(sorted, c.current);
    } else {
      CurrentIsListed(c);
      RotateElems(sorted, c.current);
    }
  }

  /** Resorting twice is resorting once. */
  lemma ResortTwice(c: Call, caller: Caller, newId: string)
    requires Valid(c) && c.started
    ensures Step(Step(c, caller, ResortOrder, newId).value, caller, ResortOrder, newId)
         == Step(c, caller, ResortOrder, newId)
  {
    ResortTurnsTheSort(c, caller, newId);
  }

  /** Before the cycle starts the order is the plain sort already, so a resort changes nothing. */
  lemma ResortBeforeStart(c: Call, caller: Caller, newId: string)
    requires Valid(c) && !c.started
    ensures Step(c, caller, ResortOrder, newId) == Ok(c)
  {
    ValidIsSynced(c);
  }
}
