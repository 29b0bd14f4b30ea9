/** Any number of limited-use requests on one player, interleaved store operation by store operation. */
module LimitedUseRuns {
  import opened Seqs
  import opened LimitedUses
  import opened LimitedUseLaws

  datatype Kind = Creates | Restores | Refills | Spends | Clamps

  datatype Effect = Effect(kind: Kind, id: string, amount: int)

  datatype Client = Client(request: Request, phase: Phase)

  /** `log` is a history variable: the effects on remaining counts, in order. */
  datatype System = System(uses: Uses, clients: seq<Client>, log: seq<Effect>)

  datatype Action = Act(i: nat, newId: string) | DropPlayer

  predicate Issued(log: seq<Effect>, id: string) {
    exists k :: 0 <= k < |log| && log[k].id == id
  }

  /** Generated ids were never used before. */
  predicate Enabled(s: System, a: Action) {
    a.Act? ==> a.i < |s.clients| && !s.clients[a.i].phase.Done? && !Issued(s.log, a.newId)
  }

  /** What a completed request did to remaining counts. */
  function EffectsOf(uses: Uses, r: Request, newId: string): seq<Effect>
    requires Atomic(uses, r, newId).Ok?
  {
    match r
    case Add(_, _, max, _) => [Effect(Creates, newId, max)]
    case Edit(id, patch) =>
      var u := Lookup(uses, id).value;
      [Effect(Clamps, id, if patch.max.Some? && u.remaining > patch.max.value then u.remaining - patch.max.value else 0)]
    case Delete(_) => []
    case Spend(id) => [Effect(Spends, id, 1)]
    case Restore(id) => [Effect(Restores, id, 1)]
    case Reset(id) => [Effect(Refills, id, Lookup(uses, id).value.max - Lookup(uses, id).value.remaining)]
  }

  function Next(s: System, a: Action): System
    requires Enabled(s, a)
  {
    match a
    case DropPlayer => s.(uses := None)
    case Act(i, newId) =>
      var r, p := s.clients[i].request, s.clients[i].phase;
      var (after, next) := StepRequest(s.uses, r, p, newId);
      System(after, s.clients[i := Client(r, next)],
             s.log + if Succeeds(next) && Atomic(s.uses, r, newId).Ok? then EffectsOf(s.uses, r, newId) else [])
  }

  function Exec(s: System, actions: seq<Action>): System {
    if actions == [] then s
    else
      var t := Exec(s, Init(actions));
      if Enabled(t, Last(actions)) then Next(t, Last(actions)) else t
  }

  predicate Initial(s: System) {
    && s.uses == Some([]) && s.log == []
    && forall i :: 0 <= i < |s.clients| ==> s.clients[i].phase == FirstPhase(s.clients[i].request)
  }

  // ---------------------------------------------------------------- conservation

  function Total(log: seq<Effect>, kind: Kind, id: string): int {
    if log == [] then 0
    else Total(Init(log), kind, id) + (if Last(log).kind == kind && Last(log).id == id then Last(log).amount else 0)
  }

  /** initial + restores + refills - spends - clamps */
  function Balance(log: seq<Effect>, id: string): int {
    Total(log, Creates, id) + Total(log, Restores, id) + Total(log, Refills, id)
    - Total(log, Spends, id) - Total(log, Clamps, id)
  }

  /** The entry's remaining count is its balance. */
  predicate Settles(uses: Uses, log: seq<Effect>, id: string) {
    Lookup(uses, id).Some? ==> Issued(log, id) && Lookup(uses, id).value.remaining == Balance(log, id)
  }

  predicate Conserved(s: System, id: string) {
    Settles(s.uses, s.log, id)
  }

  ghost predicate Inv(s: System) {
    && UsesOk(s.uses)
    && (forall id :: Conserved(s, id))
    && (forall i :: 0 <= i < |s.clients| ==> PhaseOk(s.clients[i].request, s.clients[i].phase))
  }

  lemma {:induction false} NotIssuedIsZero(log: seq<Effect>, id: string)
    requires !Issued(log, id)
    ensures Balance(log, id) == 0
  {
    if log != [] {
      assert forall k :: 0 <= k < |Init(log)| ==> Init(log)[k] == log[k];
      NotIssuedIsZero(Init(log), id);
      assert log[|log| - 1].id != id;
    }
  }

  lemma LogGrows(log: seq<Effect>, e: Effect, id: string)
    ensures Issued(log, id) ==> Issued(log + [e], id)
    ensures Issued(log + [e], e.id)
    ensures e.id != id ==> Balance(log + [e], id) == Balance(log, id)
    ensures e.id == id ==>
      Balance(log + [e], id) == Balance(log, id) + (if e.kind == Spends || e.kind == Clamps then -e.amount else e.amount)
  {
    assert Init(log + [e]) == log;
    assert (log + [e])[|log|] == e;
    if Issued(log, id) {
      var k :| 0 <= k < |log| && log[k].id == id;
      assert (log + [e])[k] == log[k];
    }
  }

  /** Every completed request changes the balance of its entry as it changes the entry. */
  lemma EffectIsConserved(uses: Uses, r: Request, newId: string, log: seq<Effect>, id: string)
    requires UsesOk(uses) && WellFormed(r) && Atomic(uses, r, newId).Ok? && Settles(uses, log, id)
    requires r.Add? ==> !Issued(log, newId) && Lookup(uses, newId) == None
    ensures Settles(Atomic(uses, r, newId).value.0, log + EffectsOf(uses, r, newId), id)
  {
    hide Settles, Atomic, UsesOk, EffectsOf;
    match r
    case Add(_, _, _, _) => AddIsConserved(uses, r, newId, log, id);
    case Delete(_) => DeleteIsConserved(uses, r, newId, log, id);
    case Edit(_, _) => ChangeIsConserved(uses, r, newId, log, id);
    case Restore(_) => ChangeIsConserved(uses, r, newId, log, id);
    case Reset(_) => ChangeIsConserved(uses, r, newId, log, id);
    case Spend(_) => SpendIsConserved(uses, r, newId, log, id);
  }

  lemma AddIsConserved(uses: Uses, r: Request, newId: string, log: seq<Effect>, id: string)
    requires UsesOk(uses) && r.Add? && Atomic(uses, r, newId).Ok? && Settles(uses, log, id)
    requires !Issued(log, newId) && Lookup(uses, newId) == None
    ensures Settles(Atomic(uses, r, newId).value.0, log + EffectsOf(uses, r, newId), id)
  {
    hide Balance, InRange, Lookup, Issued;
    LogGrows(log, Effect(Creates, newId, r.max), id);
    PushLookups(uses, LimitedUse(newId, r.name, r.note, r.max, r.max, r.resets), id);
    NotIssuedIsZero(log, newId);
  }

  lemma DeleteIsConserved(uses: Uses, r: Request, newId: string, log: seq<Effect>, id: string)
    requires UsesOk(uses) && r.Delete? && Atomic(uses, r, newId).Ok? && Settles(uses, log, id)
    ensures Settles(Atomic(uses, r, newId).value.0, log + EffectsOf(uses, r, newId), id)
  {
    assert uses.Some?;
    hide Balance, InRange, Lookup, Issued, Pull;
    PullLookups(uses, r.id, id);
    assert log + [] == log;
  }

  lemma ChangeIsConserved(uses: Uses, r: Request, newId: string, log: seq<Effect>, id: string)
    requires UsesOk(uses) && (r.Edit? || r.Restore? || r.Reset?) && Atomic(uses, r, newId).Ok? && Settles(uses, log, id)
    ensures Settles(Atomic(uses, r, newId).value.0, log + EffectsOf(uses, r, newId), id)
  {
    hide Balance, InRange, Lookup, Issued, Replaced;
    LogGrows(log, EffectsOf(uses, r, newId)[0], id);
    if r.Edit? {
      ReplacedLookups(uses, r.id, SetPatch(r.patch), id);
    } else if r.Restore? {
      ReplacedLookups(uses, r.id, Inc(1), id);
    } else {
      ReplacedLookups(uses, r.id, SetRemaining(Lookup(uses, r.id).value.max), id);
    }
  }

  lemma SpendIsConserved(uses: Uses, r: Request, newId: string, log: seq<Effect>, id: string)
    requires UsesOk(uses) && r.Spend? && Atomic(uses, r, newId).Ok? && Settles(uses, log, id)
    ensures Settles(Atomic(uses, r, newId).value.0, log + EffectsOf(uses, r, newId), id)
  {
    assert uses.Some?;
    hide Balance, InRange, Pull, UpdateElement, Issued, Lookup, Replaced, PullWhere;
    LogGrows(log, EffectsOf(uses, r, newId)[0], id);
    var u := Lookup(uses, r.id).value;
    if u.remaining == 1 && !u.resets { PullLookups(uses, r.id, id); } else { ReplacedLookups(uses, r.id, Inc(-1), id); }
  }

  lemma ReplacedLookups(uses: Uses, x: string, op: Update, id: string)
    requires UsesOk(uses) && Lookup(uses, x).Some?
    ensures Lookup(Replaced(uses, x, op).0, id) == if id == x then Some(Updated(Lookup(uses, x).value, op)) else Lookup(uses, id)
  {
    UpdateLookups(uses, WithId(x), op, id);
  }

  lemma NextKeepsInv(s: System, a: Action)
    requires Inv(s) && Enabled(s, a)
    ensures Inv(Next(s, a))
  {
    if a.Act? {
      hide StepRequest, Atomic, EffectsOf, PhaseOk, UsesOk, Lookup, Balance;
      var i, t := a.i, Next(s, a);
      var r, p := s.clients[i].request, s.clients[i].phase;
      assert PhaseOk(r, p);
      assert Conserved(s, a.newId);
      PhasesFollow(s.uses, r, p, a.newId);
      OperationIsAtomic(s.uses, r, p, a.newId);
      if Succeeds(t.clients[i].phase) {
        PhaseIsWellFormed(r, p);
        AtomicKeepsUses(s.uses, r, a.newId);
        forall id ensures Conserved(t, id) {
          assert Conserved(s, id);
          EffectIsConserved(s.uses, r, a.newId, s.log, id);
        }
      } else {
        assert t.log == s.log;
        forall id ensures Conserved(t, id) {
          assert Conserved(s, id);
        }
      }
    } else {
      forall id ensures Conserved(Next(s, a), id) {
        LookupNone(None, id);
      }
    }
  }

  lemma PhaseIsWellFormed(r: Request, p: Phase)
    requires PhaseOk(r, p) && !p.Done?
    ensures WellFormed(r)
  {
  }

  /** In every reachable state the list is in range, duplicate-free and bounded, and each remaining
      count is what was created, restored and refilled less what was spent and clamped. */
  lemma {:induction false} AlwaysConserved(s: System, actions: seq<Action>)
    requires Initial(s)
    ensures Inv(Exec(s, actions))
  {
    if actions == [] {
      forall id ensures Conserved(s, id) {
        LookupNone(s.uses, id);
      }
    } else {
      AlwaysConserved(s, Init(actions));
      var t := Exec(s, Init(actions));
      if Enabled(t, Last(actions)) {
        NextKeepsInv(t, Last(actions));
      }
    }
  }

  // ---------------------------------------------------------------- termination

  /** How many store operations a request can still make. */
  function Fuel(p: Phase): nat {
    match p
    case Only => 2
    case CountPlayer => 1
    case TryRemove(retry) => if retry then 6 else 3
    case TryDecrement(retry) => if retry then 5 else 2
    case Check(retry) => if retry then 4 else 1
    case CasRead(attempt) => if attempt < CAS_ATTEMPTS then 2 * (CAS_ATTEMPTS - attempt) else 1
    case CasWrite(attempt, _) => if attempt < CAS_ATTEMPTS then 2 * (CAS_ATTEMPTS - attempt) - 1 else 1
    case Done(_) => 0
  }

  /** Every operation brings its request nearer to its end. */
  lemma OperationsEnd(uses: Uses, r: Request, p: Phase, newId: string)
    requires PhaseOk(r, p) && !p.Done?
    ensures Fuel(StepRequest(uses, r, p, newId).1) < Fuel(p) <= 6
  {
  }

  /** How many store operations request i made in a run. */
  function Operations(s: System, actions: seq<Action>, i: nat): nat {
    if actions == [] then 0
    else
      Operations(s, Init(actions), i)
        + (if Last(actions).Act? && Last(actions).i == i && Enabled(Exec(s, Init(actions)), Last(actions)) then 1 else 0)
  }

  /** Every request ends, whatever the others do: it makes at most six operations, and an unfinished one
      always has an operation left to make. */
  lemma {:induction false} RequestsEnd(s: System, actions: seq<Action>, i: nat)
    requires Initial(s) && i < |s.clients|
    ensures var t := Exec(s, actions);
      && |t.clients| == |s.clients|
      && Operations(s, actions, i) + Fuel(t.clients[i].phase) <= 6
      && (Fuel(t.clients[i].phase) == 0 <==> t.clients[i].phase.Done?)
  {
    hide StepRequest, PhaseOk, EffectsOf, Atomic;
    if actions != [] {
      RequestsEnd(s, Init(actions), i);
      AlwaysConserved(s, Init(actions));
      var t, a := Exec(s, Init(actions)), Last(actions);
      if a.Act? && a.i == i && Enabled(t, a) {
        assert PhaseOk(t.clients[i].request, t.clients[i].phase);
        OperationsEnd(t.uses, t.clients[i].request, t.clients[i].phase, a.newId);
      }
    }
  }
}
