/** Round fairness of the initiative tracker, over whole runs of accepted requests. */
module Fairness {
  import opened Seqs
  import opened TurnOrder
  import opened TurnOrderLaws
  import opened Tracker
  import opened TrackerLaws

  datatype Event = Event(caller: Caller, op: Op, newId: string)

  /** calls[i] is the stored call before events[i]; rejected requests store nothing and are not listed. */
  datatype Run = Run(calls: seq<Call>, events: seq<Event>)

  predicate IsRun(r: Run) {
    && |r.calls| == |r.events| + 1
    && Valid(r.calls[0])
    && forall i :: 0 <= i < |r.events| ==> Follows(r.calls[i], r.events[i], r.calls[i + 1])
  }

  predicate Follows(c: Call, e: Event, d: Call) {
    FreshId(c, e.newId) && Step(c, e.caller, e.op, e.newId) == Ok(d)
  }

  predicate NoResort(r: Run) {
    forall i :: 0 <= i < |r.events| ==> r.events[i].op != ResortOrder
  }

  /** Request i ends the turn of x. */
  predicate EndsTurnOf(r: Run, i: nat, x: string)
    requires i < |r.events| && i < |r.calls|
  {
    r.events[i].op == EndTurn && r.calls[i].current == x
  }

  /** How often x ended its turn among the first n requests. */
  function Turns(r: Run, x: string, n: nat): nat
    requires n <= |r.events| && n <= |r.calls|
  {
    if n == 0 then 0 else Turns(r, x, n - 1) + (if EndsTurnOf(r, n - 1, x) then 1 else 0)
  }

  predicate TakesPart(r: Run, i: nat, x: string)
    requires i < |r.calls|
  {
    x in CycleIds(r.calls[i].participants)
  }

  /** A round of p: it opens and closes with p ending its turn, and p ends no turn in between. */
  predicate IsRound(r: Run, p: string) {
    && IsRun(r) && NoResort(r) && |r.events| >= 2
    && EndsTurnOf(r, 0, p) && EndsTurnOf(r, |r.events| - 1, p)
    && forall i :: 0 < i < |r.events| - 1 ==> !EndsTurnOf(r, i, p)
  }

  /** Up to call k, p takes part at every moment after a turn of q. */
  predicate StaysAfter(r: Run, p: string, q: string, k: nat)
    requires k < |r.calls| && |r.events| + 1 == |r.calls|
  {
    forall i, j :: 0 < i < j <= k && EndsTurnOf(r, i, q) ==> TakesPart(r, j, p)
  }

  lemma {:induction false} RunIsValid(r: Run, n: nat)
    requires IsRun(r) && n < |r.calls|
    ensures Valid(r.calls[n])
  {
    if n > 0 {
      RunIsValid(r, n - 1);
      var e := r.events[n - 1];
      assert Follows(r.calls[n - 1], e, r.calls[n]);
      StepKeepsValid(r.calls[n - 1], e.caller, e.op, e.newId);
    }
  }

  /** The cycle never stops once an end-turn has started it. */
  lemma {:induction false} RunIsStarted(r: Run, n: nat)
    requires IsRun(r) && 0 < n < |r.calls| && r.events[0].op == EndTurn
    ensures r.calls[n].started
  {
    var e := r.events[n - 1];
    assert Follows(r.calls[n - 1], e, r.calls[n]);
    if n > 1 {
      RunIsStarted(r, n - 1);
    }
  }

  /** The relative position of p and q, as the proof tracks it. */
  predicate Position(order: seq<string>, p: string, q: string, turns: nat, stays: bool) {
    && NoDup(order)
    && q in order
    && (turns == 0 ==> stays && (p !in order || Before(order, q, p)))
    && (turns >= 1 && stays ==> turns == 1 && Before(order, p, q))
    && (turns >= 1 && !stays ==> turns >= 2 || p !in order || Before(order, q, p))
  }

  lemma NotBoth(s: seq<string>, x: string, y: string)
    requires NoDup(s) && Before(s, x, y)
    ensures !Before(s, y, x) && x in s && y in s && s[0] != y
  {
  }

  /** Passing the turn keeps the order of any two, except that the acting one falls behind. */
  lemma PassBefore(s: seq<string>, x: string, y: string)
    requires NoDup(s) && s != []
    ensures Before(s, x, y) && x != s[0] ==> Before(s[1..] + [s[0]], x, y)
    ensures x == s[0] && y in s && x != y ==> Before(s[1..] + [s[0]], y, x)
  {
    var t := s[1..] + [s[0]];
    if Before(s, x, y) && x != s[0] {
      var i, j :| 0 <= i < j < |s| && s[i] == x && s[j] == y;
      assert t[i - 1] == x && t[j - 1] == y;
    }
    if x == s[0] && y in s && x != y {
      var j :| 0 <= j < |s| && s[j] == y;
      assert t[j - 1] == y && t[|s| - 1] == x;
    }
  }

  lemma PositionAfterPass(s: seq<string>, p: string, q: string, turns: nat, stays: bool)
    requires Position(s, p, q, turns, stays) && p != q && s[0] != p
    ensures var t := s[1..] + [s[0]];
      if s[0] == q then Position(t, p, q, turns + 1, stays && p in s) else Position(t, p, q, turns, stays)
  {
    var t := s[1..] + [s[0]];
    assert s == [s[0]] + s[1..];
    NoDupConcat(s[1..], [s[0]]);
    assert forall x :: x in t <==> x in s;
    PassBefore(s, q, p);
    PassBefore(s, p, q);
    if turns >= 1 && stays {
      NotBoth(s, p, q);
    }
  }

  lemma PositionAfterChange(s: seq<string>, keep: set<string>, late: seq<string>, p: string, q: string, turns: nat, stays: bool)
    requires Position(s, p, q, turns, stays) && p != q && q in keep
    requires NoDup(Keep(s, keep) + late) && forall x :: x in late ==> x !in s
    ensures Position(Keep(s, keep) + late, p, q, turns, stays && (turns >= 1 ==> p in Keep(s, keep) + late))
  {
    var k := Keep(s, keep);
    if p in s && p in keep {
      if Before(s, q, p) {
        KeepBefore(s, keep, q, p);
        BeforeAppend(k, late, q, p);
      }
      if Before(s, p, q) {
        KeepBefore(s, keep, p, q);
        BeforeAppend(k, late, p, q);
      }
    } else if p in late {
      BeforeAppend(k, late, q, p);
    }
  }

  /** One request of the round, seen as a change of position. */
  lemma PositionStep(c: Call, e: Event, d: Call, p: string, q: string, turns: nat, stays: bool)
    requires Valid(c) && Valid(d) && c.started && Follows(c, e, d) && e.op != ResortOrder && p != q
    requires q in d.order && !(e.op == EndTurn && c.current == p)
    requires Position(c.order, p, q, turns, stays)
    ensures var turns' := if e.op == EndTurn && c.current == q then turns + 1 else turns;
      Position(d.order, p, q, turns', stays && (turns' >= 1 ==> p in d.order))
  {
    hide Step;
    if e.op == EndTurn {
      EndTurnRotates(c, e.caller, e.newId);
      assert forall x :: x in d.order <==> x in c.order by {
        assert c.order == [c.order[0]] + c.order[1..];
      }
      PositionAfterPass(c.order, p, q, turns, stays);
    } else {
      RunningOrderEvolves(c, e.caller, e.op, e.newId);
      assert q in Elems(d.order);
      var late := Without(SortedIds(d.participants), Elems(c.order));
      PositionAfterChange(c.order, CycleIds(d.participants), late, p, q, turns, stays);
    }
  }

  lemma {:induction false} RoundPosition(r: Run, p: string, q: string, k: nat)
    requires IsRound(r, p) && p != q
    requires forall i :: 0 <= i < |r.events| ==> TakesPart(r, i, q)
    requires 0 < k < |r.events|
    ensures Position(r.calls[k].order, p, q, Turns(r, q, k), StaysAfter(r, p, q, k))
  {
    hide Step, FreshId;
    var c, d, e := r.calls[k - 1], r.calls[k], r.events[k - 1];
    RunIsValid(r, k - 1);
    RunIsValid(r, k);
    assert Follows(c, e, d);
    assert q in Elems(d.order) by { assert TakesPart(r, k, q); }
    if k == 1 {
      assert q in Elems(c.order) by { assert TakesPart(r, 0, q); }
      assert Turns(r, q, 1) == Turns(r, q, 0);
      EndTurnRotates(c, e.caller, e.newId);
      NoDupConcat(c.order[1..], [c.order[0]]);
      PassBefore(c.order, p, q);
    } else {
      RoundPosition(r, p, q, k - 1);
      RunIsStarted(r, k - 1);
      StaysStep(r, p, q, k);
      assert TakesPart(r, k, p) <==> p in Elems(d.order);
      assert !EndsTurnOf(r, k - 1, p);
      PositionStep(c, e, d, p, q, Turns(r, q, k - 1), StaysAfter(r, p, q, k - 1));
    }
  }

  lemma {:induction false} TurnsPositive(r: Run, x: string, n: nat)
    requires n <= |r.events| && n <= |r.calls|
    ensures Turns(r, x, n) >= 1 <==> exists i :: 0 <= i < n && EndsTurnOf(r, i, x)
  {
    if n > 0 {
      TurnsPositive(r, x, n - 1);
    }
  }

  lemma StaysStep(r: Run, p: string, q: string, k: nat)
    requires IsRound(r, p) && p != q && 1 < k < |r.calls|
    ensures StaysAfter(r, p, q, k)
        <==> (StaysAfter(r, p, q, k - 1) && (Turns(r, q, k) >= 1 ==> TakesPart(r, k, p)))
  {
    TurnsPositive(r, q, k);
  }

  /** Between two consecutive turns of p, everybody q who takes part throughout gets a turn, and gets
      exactly one if and only if p itself did not leave the cycle after q had acted. Skips, resumes,
      removals, new enemies and new rolls of all others are unrestricted. */
  lemma RoundIsFair(r: Run, p: string, q: string)
    requires IsRound(r, p) && p != q
    requires forall i :: 0 <= i < |r.events| ==> TakesPart(r, i, q)
    ensures Turns(r, q, |r.events|) >= 1
    ensures Turns(r, q, |r.events|) == 1 <==> StaysAfter(r, p, q, |r.events| - 1)
  {
    hide Step;
    var n := |r.events| - 1;
    RoundPosition(r, p, q, n);
    RunIsValid(r, n);
    EndTurnRotates(r.calls[n], r.events[n].caller, r.events[n].newId) by {
      assert Follows(r.calls[n], r.events[n], r.calls[n + 1]);
    }
    var s := r.calls[n].order;
    assert s[0] == p;
    if Before(s, q, p) {
      NotBoth(s, q, p);
    }
  }

  /** In particular: exactly one turn each for all who stay, when p stays too. */
  lemma SteadyRoundIsFair(r: Run, p: string, q: string)
    requires IsRound(r, p) && p != q
    requires forall i :: 0 <= i < |r.events| ==> TakesPart(r, i, p) && TakesPart(r, i, q)
    ensures Turns(r, q, |r.events|) == 1
  {
    RoundIsFair(r, p, q);
  }

  // ---------------------------------------------------------------- the condition is needed

  /** The participants with the one named `id` skipped. */
  function Sidelined(ps: seq<Participant>, id: string): seq<Participant>
    requires id in Ids(ps)
  {
    var k := IndexOf(Ids(ps), id);
    ps[k := ps[k].(isSkipped := true)]
  }

  lemma SidelinedBack(ps: seq<Participant>, id: string)
    requires NoDup(Ids(ps)) && id in CycleIds(ps)
    ensures id in Ids(ps)
    ensures var away := Sidelined(ps, id);
      && Ids(away) == Ids(ps)
      && away[IndexOf(Ids(ps), id) := away[IndexOf(Ids(ps), id)].(isSkipped := false)] == ps
  {
    InIds(ps, id);
    var p :| p in ps && InCycle(p) && p.id == id;
    var k := IndexOf(Ids(ps), id);
    var m :| 0 <= m < |ps| && ps[m] == p;
    assert Ids(ps)[m] == Ids(ps)[k];
    assert m == k;
    assert Ids(Sidelined(ps, id)) == Ids(ps);
  }

  lemma SkipMutates(c: Call, caller: Caller, id: string, newId: string)
    requires Valid(c) && id in c.order
    ensures id in Ids(c.participants) && id in CycleIds(c.participants)
    ensures Mutate(c, caller, Skip(id, true), newId) == Ok(c.(participants := Sidelined(c.participants, id)))
  {
    assert id in Elems(c.order);
    SidelinedBack(c.participants, id);
  }

  /** Skipping takes a participant out of the running order ... */
  lemma SkipFollows(c: Call, caller: Caller, id: string, newId: string) returns (d: Call)
    requires Valid(c) && c.started && FreshId(c, newId) && id in c.order
    ensures Follows(c, Event(caller, Skip(id, true), newId), d) && Valid(d) && d.started
    ensures id in Ids(c.participants) && d.participants == Sidelined(c.participants, id) && FreshId(d, newId)
    ensures d.order == Without(c.order, {id}) && CycleIds(d.participants) == CycleIds(c.participants) - {id}
  {
    hide Order, CycleIds;
    SkipMutates(c, caller, id, newId);
    SidelinedBack(c.participants, id);
    d := Step(c, caller, Skip(id, true), newId).value;
    LeavingKeepsTheRest(c, caller, Skip(id, true), id, newId);
    LeaverCycle(c, caller, Skip(id, true), id, newId);
    StepKeepsValid(c, caller, Skip(id, true), newId);
  }

  lemma ResumeMutates(c: Call, caller: Caller, id: string, newId: string, ps: seq<Participant>)
    requires NoDup(Ids(ps)) && id in CycleIds(ps) && id in Ids(ps) && c.participants == Sidelined(ps, id)
    ensures Ids(c.participants) == Ids(ps)
    ensures Mutate(c, caller, Skip(id, false), newId) == Ok(c.(participants := ps))
  {
    SidelinedBack(ps, id);
  }

  /** ... and resuming it restores everything except its place, which is now the last one. */
  lemma ResumeFollows(c: Call, caller: Caller, id: string, newId: string, ps: seq<Participant>) returns (d: Call)
    requires Valid(c) && c.started && FreshId(c, newId)
    requires NoDup(Ids(ps)) && id in CycleIds(ps) && id in Ids(ps) && c.participants == Sidelined(ps, id)
    requires CycleIds(c.participants) == CycleIds(ps) - {id}
    ensures Follows(c, Event(caller, Skip(id, false), newId), d) && Valid(d) && d.started
    ensures d.participants == ps && d.order == c.order + [id] && FreshId(d, newId)
  {
    hide Order, CycleIds;
    ResumeMutates(c, caller, id, newId, ps);
    d := Step(c, caller, Skip(id, false), newId).value;
    assert id !in Elems(c.order);
    JoiningGoesLast(c, caller, Skip(id, false), id, newId);
    StepKeepsValid(c, caller, Skip(id, false), newId);
  }

  /** A DM can always end the turn of a valid call that has an order. */
  lemma PassFollows(c: Call, caller: Caller, newId: string)
    requires Valid(c) && c.started && FreshId(c, newId) && caller.isDM && |c.order| == 2
    ensures var d := c.(order := [c.order[1], c.order[0]], current := c.order[1]);
      Valid(d) && FreshId(d, newId) && Follows(c, Event(caller, EndTurn, newId), d)
  {
    EndTurnAllowed(c, caller, newId);
    EndTurnRotates(c, caller, newId);
    StepKeepsValid(c, caller, EndTurn, newId);
    assert c.order[1..] + [c.order[0]] == [c.order[1], c.order[0]];
  }

  /** Two combatants suffice: p ends its turn, q acts, p is skipped and resumed, and q acts again
      before p does. So q, who takes part throughout, acts twice in one round of p. */
  lemma RoundCanBeUnfair(c: Call, caller: Caller, p: string, q: string, newId: string) returns (r: Run)
    requires Valid(c) && c.started && c.order == [p, q] && caller.isDM && FreshId(c, newId)
    ensures IsRound(r, p) && r.calls[0] == c
    ensures forall i :: 0 <= i < |r.events| ==> TakesPart(r, i, q)
    ensures Turns(r, q, |r.events|) == 2
  {
    hide Step, FreshId, Ids, DistinctIds, CycleIds, SortedIds;
    var pass := Event(caller, EndTurn, newId);
    var c1 := c.(order := [q, p], current := q);
    PassFollows(c, caller, newId);
    PassFollows(c1, caller, newId);
    var c3 := SkipFollows(c, caller, p, newId);
    WithoutHead([p, q], p);
    assert p in Elems(c.order);
    assert p in CycleIds(c.participants) && NoDup(Ids(c.participants)) by { ValidIds(c); }
    SidelinedBack(c.participants, p);
    var c4 := ResumeFollows(c3, caller, p, newId, c.participants);
    var c5 := c4.(order := [p, q], current := p);
    PassFollows(c4, caller, newId);
    var c6 := c5.(order := [q, p], current := q);
    PassFollows(c5, caller, newId);
    r := Run([c, c1, c, c3, c4, c5, c6],
             [pass, pass, Event(caller, Skip(p, true), newId), Event(caller, Skip(p, false), newId), pass, pass]);
    SixSteps(r);
    SixTakePart(r, q);
    UnfairCount(r, p, q);
  }

  lemma SixTakePart(r: Run, q: string)
    requires |r.events| == 6 && |r.calls| == 7
    requires forall i :: 0 <= i < 6 ==> Valid(r.calls[i]) && q in r.calls[i].order
    ensures forall i :: 0 <= i < 6 ==> TakesPart(r, i, q)
  {
    forall i | 0 <= i < 6 ensures TakesPart(r, i, q) {
      assert q in Elems(r.calls[i].order);
    }
  }

  lemma ValidIds(c: Call)
    requires Valid(c)
    ensures NoDup(Ids(c.participants)) && Elems(c.order) == CycleIds(c.participants)
  {
  }

  lemma SixSteps(r: Run)
    requires |r.events| == 6 && |r.calls| == 7 && Valid(r.calls[0])
    requires Follows(r.calls[0], r.events[0], r.calls[1]) && Follows(r.calls[1], r.events[1], r.calls[2])
    requires Follows(r.calls[2], r.events[2], r.calls[3]) && Follows(r.calls[3], r.events[3], r.calls[4])
    requires Follows(r.calls[4], r.events[4], r.calls[5]) && Follows(r.calls[5], r.events[5], r.calls[6])
    ensures IsRun(r)
  {
    hide Step, FreshId;
    forall i | 0 <= i < 6 ensures Follows(r.calls[i], r.events[i], r.calls[i + 1]) {
    }
  }

  lemma UnfairCount(r: Run, p: string, q: string)
    requires |r.events| == 6 && |r.calls| == 7 && p != q
    requires r.events[0].op == r.events[1].op == r.events[4].op == r.events[5].op == EndTurn
    requires r.events[2].op != EndTurn && r.events[3].op != EndTurn
    requires r.calls[0].current == r.calls[5].current == p && r.calls[1].current == r.calls[4].current == q
    ensures Turns(r, q, 6) == 2
  {
    assert Turns(r, q, 0) == 0 && Turns(r, q, 1) == 0;
    assert Turns(r, q, 2) == 1 && Turns(r, q, 3) == 1;
    assert Turns(r, q, 4) == 1 && Turns(r, q, 5) == 2;
  }

  // ---------------------------------------------------------------- ... and cycles of two are reached

  /** The roll of a player with one combatant among two. */
  lemma RollOfOne(c: Call, caller: Caller, e: RosterEntry, k: nat, roll: int, newId: string) returns (d: Call)
    requires Valid(c) && FreshId(c, newId) && |c.participants| == 2 && k < 2
    requires c.participants[k].playerId == e.id && c.participants[1 - k].playerId != e.id
    ensures Follows(c, Event(caller, Submit(e.id, roll), newId), d) && Valid(d) && FreshId(d, newId)
    ensures d.participants == c.participants[k := Rolled(c.participants[k], roll, caller.playerId)]
  {
    hide Order;
    var ps := SubmitFor(c.participants, e.id, roll, caller.playerId);
    assert c.participants[k] in c.participants;
    assert ps == c.participants[k := Rolled(c.participants[k], roll, caller.playerId)];
    d := Step(c, caller, Submit(e.id, roll), newId).value;
    StepKeepsValid(c, caller, Submit(e.id, roll), newId);
    assert Ids(ps) == Ids(c.participants);
  }

  /** From the start of any call with two players: both roll, one turn is ended, and the cycle of two runs. */
  lemma CycleOfTwoIsReached(id: string, a: RosterEntry, b: RosterEntry, caller: Caller, x: int, y: int, newId: string)
    returns (r: Run, p: string, q: string)
    requires a.kind == PC && b.kind == PC && a.id != b.id && caller.isDM && FreshId(StartedCall(id, [a, b]), newId)
    ensures IsRun(r) && r.calls[0] == StartedCall(id, [a, b])
    ensures var c := Last(r.calls); Valid(c) && c.started && c.order == [p, q] && FreshId(c, newId)
  {
    hide Order, Step, Valid, FreshId, SortedIds;
    var c0 := StartedCall(id, [a, b]);
    StartIsValid(id, [a, b]);
    TwoCombatants(a, b);
    var c1 := RollOfOne(c0, caller, a, 0, x, newId);
    var c2 := RollOfOne(c1, caller, b, 1, y, newId);
    BothInCycle(c2, a, b, x, y, caller);
    var c3 := Passed(c2);
    FirstPass(c2, caller, newId);
    p, q := c3.order[0], c3.order[1];
    r := Run([c0, c1, c2, c3], [Event(caller, Submit(a.id, x), newId), Event(caller, Submit(b.id, y), newId), Event(caller, EndTurn, newId)]);
    forall i | 0 <= i < 3 ensures Follows(r.calls[i], r.events[i], r.calls[i + 1]) {
    }
  }

  lemma TwoCombatants(a: RosterEntry, b: RosterEntry)
    requires a.kind == PC && b.kind == PC
    ensures Combatants([a, b]) == [Combatant(a), Combatant(b)]
  {
    assert Init([a, b]) == [a] && Init([a]) == [];
    assert Combatants([a]) == [Combatant(a)];
  }

  lemma BothInCycle(c: Call, a: RosterEntry, b: RosterEntry, x: int, y: int, caller: Caller)
    requires Valid(c) && a.id != b.id
    requires c.participants == [Rolled(Combatant(a), x, caller.playerId), Rolled(Combatant(b), y, caller.playerId)]
    ensures |c.order| == 2
  {
    var ps, s, t := c.participants, Combatant(a).id, Combatant(b).id;
    if s == t { CombatantIdInjective(a, b); }
    assert ps[0] in ps && ps[1] in ps;
    assert CycleIds(ps) == {s, t};
    NoDupSize(c.order);
  }

  lemma FirstPass(c: Call, caller: Caller, newId: string)
    requires Valid(c) && |c.order| == 2 && caller.isDM && FreshId(c, newId)
    ensures var d := Passed(c); Follows(c, Event(caller, EndTurn, newId), d) && Valid(d) && d.started && FreshId(d, newId)
    ensures |Passed(c).order| == 2 && Passed(c).order == [Passed(c).order[0], Passed(c).order[1]]
  {
    EndTurnAllowed(c, caller, newId);
    EndTurnRotates(c, caller, newId);
    StepKeepsValid(c, caller, EndTurn, newId);
  }
}
