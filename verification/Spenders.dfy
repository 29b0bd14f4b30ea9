/** Concurrent spenders of one entry: the single retry of spendLimitedUse is enough. */
module Spenders {
  import opened Seqs
  import opened LimitedUses
  import opened LimitedUseLaws
  import opened LimitedUseRuns

  /** Uses left of an entry; none once it is removed. */
  function LeftOf(uses: Uses, id: string): int {
    if Lookup(uses, id) == None then 0 else Lookup(uses, id).value.remaining
  }

  predicate Spends(c: Client, id: string) {
    c.request == Spend(id)
  }

  /** How many of the spenders of `id` have completed, and how many of those removed the entry. */
  function Completed(cs: seq<Client>, id: string): nat {
    if cs == [] then 0
    else Completed(Init(cs), id) + (if Spends(Last(cs), id) && Succeeds(Last(cs).phase) then 1 else 0)
  }

  function Removals(cs: seq<Client>, id: string): nat {
    if cs == [] then 0
    else Removals(Init(cs), id) + (if Spends(Last(cs), id) && Last(cs).phase == Done(Removed) then 1 else 0)
  }

  function Count(cs: seq<Client>, id: string): nat {
    if cs == [] then 0 else Count(Init(cs), id) + (if Spends(Last(cs), id) then 1 else 0)
  }

  function One(b: bool): int {
    if b then 1 else 0
  }

  lemma {:induction false} CountsAfter(cs: seq<Client>, i: nat, c: Client, id: string)
    requires i < |cs| && c.request == cs[i].request
    ensures Completed(cs[i := c], id)
      == Completed(cs, id) - One(Spends(c, id) && Succeeds(cs[i].phase)) + One(Spends(c, id) && Succeeds(c.phase))
    ensures Removals(cs[i := c], id)
      == Removals(cs, id) - One(Spends(c, id) && cs[i].phase == Done(Removed)) + One(Spends(c, id) && c.phase == Done(Removed))
    ensures Count(cs[i := c], id) == Count(cs, id)
  {
    if i == |cs| - 1 {
      assert Init(cs[i := c]) == Init(cs);
    } else {
      CountsAfter(Init(cs), i, c, id);
      assert Init(cs[i := c]) == Init(cs)[i := c];
    }
  }

  /** What each phase of a spender knows when nothing but spenders touch the entry. */
  predicate PhaseKnows(p: Phase, oneTime: bool, left: int) {
    match p
    case TryRemove(retry) => retry || (oneTime && left <= 1)
    case TryDecrement(retry) => retry || (oneTime && left == 0)
    case Check(retry) => if oneTime && retry then left <= 1 else left == 0
    case Done(outcome) => outcome.Failed? ==> left == 0
    case _ => false
  }

  /** Nobody but spenders targets the entry. */
  predicate OnlySpent(cs: seq<Client>, id: string) {
    forall i :: 0 <= i < |cs| ==> cs[i].request.Add? || cs[i].request.id != id || cs[i].request == Spend(id)
  }

  /** The entry as it was when the spenders started. */
  ghost predicate StartsWith(s: System, id: string, uses: int, oneTime: bool) {
    && Inv(s) && OnlySpent(s.clients, id)
    && Lookup(s.uses, id).Some?
    && Lookup(s.uses, id).value.remaining == uses && Lookup(s.uses, id).value.resets == !oneTime
    && forall i :: 0 <= i < |s.clients| && Spends(s.clients[i], id) ==> s.clients[i].phase == TryRemove(true)
  }

  ghost predicate SpendInv(s: System, id: string, uses: int, oneTime: bool) {
    && Inv(s) && OnlySpent(s.clients, id) && Issued(s.log, id) && s.uses.Some?
    && Completed(s.clients, id) + LeftOf(s.uses, id) == uses
    && (Lookup(s.uses, id).Some? ==>
          Lookup(s.uses, id).value.resets == !oneTime && (oneTime && uses >= 1 ==> Lookup(s.uses, id).value.remaining >= 1))
    && (Lookup(s.uses, id).None? ==> oneTime && uses >= 1)
    && Removals(s.clients, id) == One(Lookup(s.uses, id).None?)
    && forall i :: 0 <= i < |s.clients| && Spends(s.clients[i], id) ==>
         PhaseKnows(s.clients[i].phase, oneTime, LeftOf(s.uses, id))
  }

  /** An operation of some other request leaves the entry alone. */
  lemma OthersLeaveItAlone(uses: Uses, r: Request, p: Phase, newId: string, id: string)
    requires UsesOk(uses) && uses.Some? && PhaseOk(r, p) && !p.Done?
    requires TargetId(r, newId) != id && (r.Add? ==> Lookup(uses, newId) == None)
    ensures var after := StepRequest(uses, r, p, newId).0; after.Some? && Lookup(after, id) == Lookup(uses, id)
  {
    var (after, next) := StepRequest(uses, r, p, newId);
    OperationIsAtomic(uses, r, p, newId);
    if Succeeds(next) {
      PhaseIsWellFormed(r, p);
      match r
      case Add(name, note, max, resets) => PushLookups(uses, LimitedUse(newId, name, note, max, max, resets), id);
      case Delete(x) => PullLookups(uses, x, id);
      case Edit(x, patch) => ReplacedLookups(uses, x, SetPatch(patch), id);
      case Restore(x) => ReplacedLookups(uses, x, Inc(1), id);
      case Reset(x) => ReplacedLookups(uses, x, SetRemaining(Lookup(uses, x).value.max), id);
      case Spend(x) =>
        PullLookups(uses, x, id);
        if Atomic(uses, r, newId).value.1 != Removed { ReplacedLookups(uses, x, Inc(-1), id); }
    }
  }

  /** One operation of a spender. */
  lemma SpenderOperation(uses: Uses, id: string, p: Phase, newId: string, oneTime: bool)
    requires UsesOk(uses) && uses.Some? && PhaseOk(Spend(id), p) && !p.Done?
    requires PhaseKnows(p, oneTime, LeftOf(uses, id))
    requires Lookup(uses, id).Some? ==> Lookup(uses, id).value.resets == !oneTime
    requires Lookup(uses, id).None? ==> oneTime
    ensures var (after, next) := StepRequest(uses, Spend(id), p, newId);
      && after.Some? && LeftOf(after, id) == LeftOf(uses, id) - One(Succeeds(next))
      && PhaseKnows(next, oneTime, LeftOf(after, id))
      && (next == Done(Removed) <==> Lookup(uses, id).Some? && Lookup(after, id).None?)
      && (next == Done(Removed) ==> oneTime && LeftOf(uses, id) == 1)
      && (Lookup(after, id).Some? ==> Lookup(uses, id).Some? && Lookup(after, id).value.resets == !oneTime)
      && (Succeeds(next) && Lookup(after, id).Some? && oneTime ==> Lookup(after, id).value.remaining >= 1)
  {
    var f := match p case TryRemove(_) => LastOneTime(id) case TryDecrement(_) => Spendable(id) case _ => WithId(id);
    MatchIsLookup(uses, f);
    if p.TryRemove? && FirstMatch(uses.value, f) >= 0 {
      PullLookups(uses, id, id);
    }
    if p.TryDecrement? && FirstMatch(uses.value, f) >= 0 {
      UpdateLookups(uses, f, Inc(-1), id);
    }
  }

  /** Less is left later: what a phase knows stays true. */
  lemma KnowledgeLasts(p: Phase, oneTime: bool, left: int, less: int)
    requires PhaseKnows(p, oneTime, left) && 0 <= less <= left
    ensures PhaseKnows(p, oneTime, less)
  {
  }

  lemma SpenderStep(s: System, a: Action, id: string, uses: int, oneTime: bool)
    requires SpendInv(s, id, uses, oneTime) && Enabled(s, a) && a.Act? && Spends(s.clients[a.i], id)
    ensures SpendInv(Next(s, a), id, uses, oneTime)
  {
    hide StepRequest, Atomic, PhaseOk, UsesOk, Lookup, PhaseKnows, EffectsOf;
    var c, t := s.clients[a.i], Next(s, a);
    NextKeepsInv(s, a);
    LogStays(s, a, id);
    assert PhaseOk(c.request, c.phase);
    SpenderOperation(s.uses, id, c.phase, a.newId, oneTime);
    CountsAfter(s.clients, a.i, t.clients[a.i], id);
    NeverNegative(t.uses, id);
    forall j | 0 <= j < |t.clients| && Spends(t.clients[j], id)
      ensures PhaseKnows(t.clients[j].phase, oneTime, LeftOf(t.uses, id))
    {
      if j != a.i {
        KnowledgeLasts(s.clients[j].phase, oneTime, LeftOf(s.uses, id), LeftOf(t.uses, id));
      }
    }
  }

  lemma NeverNegative(uses: Uses, id: string)
    requires UsesOk(uses)
    ensures LeftOf(uses, id) >= 0
  {
    if uses.Some? {
      MatchIsLookup(uses, WithId(id));
    }
  }

  lemma LogStays(s: System, a: Action, id: string)
    requires Enabled(s, a) && Issued(s.log, id)
    ensures Issued(Next(s, a).log, id)
  {
    hide StepRequest, Atomic, EffectsOf;
    var k :| 0 <= k < |s.log| && s.log[k].id == id;
    assert Next(s, a).log[k] == s.log[k];
  }

  lemma OtherStep(s: System, a: Action, id: string, uses: int, oneTime: bool)
    requires SpendInv(s, id, uses, oneTime) && Enabled(s, a) && a.Act? && !Spends(s.clients[a.i], id)
    ensures SpendInv(Next(s, a), id, uses, oneTime)
  {
    hide StepRequest, Atomic, PhaseOk, UsesOk, Lookup, PhaseKnows, EffectsOf;
    var c, t := s.clients[a.i], Next(s, a);
    NextKeepsInv(s, a);
    LogStays(s, a, id);
    assert PhaseOk(c.request, c.phase);
    assert Conserved(s, a.newId);
    OthersLeaveItAlone(s.uses, c.request, c.phase, a.newId, id);
    CountsAfter(s.clients, a.i, t.clients[a.i], id);
  }

  lemma {:induction false} InitialCounts(cs: seq<Client>, id: string)
    requires forall i :: 0 <= i < |cs| && Spends(cs[i], id) ==> cs[i].phase == TryRemove(true)
    ensures Completed(cs, id) == Removals(cs, id) == 0
  {
    if cs != [] {
      assert forall i :: 0 <= i < |Init(cs)| ==> Init(cs)[i] == cs[i];
      InitialCounts(Init(cs), id);
    }
  }

  lemma {:induction false} SpendersKeep(s: System, actions: seq<Action>, id: string, uses: int, oneTime: bool)
    requires StartsWith(s, id, uses, oneTime) && forall a :: a in actions ==> a.Act?
    ensures SpendInv(Exec(s, actions), id, uses, oneTime)
    ensures Count(Exec(s, actions).clients, id) == Count(s.clients, id)
  {
    if actions == [] {
      InitialCounts(s.clients, id);
      assert Conserved(s, id);
      MatchIsLookup(s.uses, WithId(id));
    } else {
      assert actions == Init(actions) + [Last(actions)];
      SpendersKeep(s, Init(actions), id, uses, oneTime);
      var t, a := Exec(s, Init(actions)), Last(actions);
      if Enabled(t, a) {
        if Spends(t.clients[a.i], id) { SpenderStep(t, a, id, uses, oneTime); } else { OtherStep(t, a, id, uses, oneTime); }
        CountsAfter(t.clients, a.i, Next(t, a).clients[a.i], id);
      }
    }
  }

  /** With nobody but spenders on the entry, a failure means that it is used up, then and ever after. */
  lemma FailureMeansUsedUp(s: System, actions: seq<Action>, id: string, uses: int, oneTime: bool, i: nat)
    requires StartsWith(s, id, uses, oneTime) && forall a :: a in actions ==> a.Act?
    requires i < |Exec(s, actions).clients| && Spends(Exec(s, actions).clients[i], id)
    requires Exec(s, actions).clients[i].phase.Done? && Exec(s, actions).clients[i].phase.outcome.Failed?
    ensures LeftOf(Exec(s, actions).uses, id) == 0
  {
    SpendersKeep(s, actions, id, uses, oneTime);
  }

  lemma {:induction false} AllEnded(cs: seq<Client>, id: string, left: int)
    requires forall i :: 0 <= i < |cs| && Spends(cs[i], id) ==> cs[i].phase.Done? && (cs[i].phase.outcome.Failed? ==> left == 0)
    ensures Completed(cs, id) <= Count(cs, id)
    ensures left != 0 ==> Completed(cs, id) == Count(cs, id)
  {
    if cs != [] {
      assert forall i :: 0 <= i < |Init(cs)| ==> Init(cs)[i] == cs[i];
      assert Last(cs) == cs[|cs| - 1];
      AllEnded(Init(cs), id, left);
    }
  }

  /** Once N spenders of an entry with R uses have all ended, exactly min(N, R) succeeded; a one-time
      entry that is used up is gone, and exactly one of them reported its removal. */
  lemma SpendersShareTheUses(s: System, actions: seq<Action>, id: string, uses: int, oneTime: bool)
    requires StartsWith(s, id, uses, oneTime) && forall a :: a in actions ==> a.Act?
    requires forall i :: 0 <= i < |Exec(s, actions).clients| && Spends(Exec(s, actions).clients[i], id)
               ==> Exec(s, actions).clients[i].phase.Done?
    ensures var t, n := Exec(s, actions), Count(s.clients, id);
      && Completed(t.clients, id) == (if n <= uses then n else uses)
      && LeftOf(t.uses, id) == (if n <= uses then uses - n else 0)
      && (oneTime && n >= uses >= 1 ==> Lookup(t.uses, id).None? && Removals(t.clients, id) == 1)
      && (!oneTime ==> Lookup(t.uses, id).Some? && Removals(t.clients, id) == 0)
  {
    var t := Exec(s, actions);
    SpendersKeep(s, actions, id, uses, oneTime);
    NeverNegative(t.uses, id);
    AllEnded(t.clients, id, LeftOf(t.uses, id));
  }

  // ---------------------------------------------------------------- one spender among any requests

  /** The operation gives the entry more uses or another kind: a successful restore, reset or switch of
      `resets`, or its creation. */
  predicate Lifts(s: System, a: Action, id: string) {
    a.Act? && Enabled(s, a) &&
    var r := s.clients[a.i].request;
    Succeeds(StepRequest(s.uses, r, s.clients[a.i].phase, a.newId).1) &&
    match r
    case Add(_, _, _, _) => a.newId == id
    case Restore(x) => x == id
    case Reset(x) => x == id
    case Edit(x, patch) =>
      x == id && Lookup(s.uses, id).Some? && patch.resets.Some? && patch.resets.value != Lookup(s.uses, id).value.resets
    case _ => false
  }

  /** What all other operations leave: an entry that is gone stays gone, one that is there keeps its kind
      and gains no use. */
  predicate Settled(before: Uses, after: Uses, id: string) {
    match (Lookup(before, id), Lookup(after, id))
    case (Some(u), Some(v)) => v.resets == u.resets && v.remaining <= u.remaining
    case (None, Some(_)) => false
    case _ => true
  }

  lemma UnliftedStep(s: System, a: Action, id: string)
    requires Inv(s) && Enabled(s, a) && !Lifts(s, a, id)
    ensures Settled(s.uses, Next(s, a).uses, id)
  {
    if a.Act? {
      hide StepRequest, PhaseOk;
      var r, p := s.clients[a.i].request, s.clients[a.i].phase;
      assert PhaseOk(r, p);
      OperationIsAtomic(s.uses, r, p, a.newId);
      if Succeeds(StepRequest(s.uses, r, p, a.newId).1) {
        assert Conserved(s, a.newId);
        UnliftedEffect(s.uses, r, a.newId, id);
      }
    } else {
      LookupNone(None, id);
    }
  }

  lemma UnliftedEffect(uses: Uses, r: Request, newId: string, id: string)
    requires UsesOk(uses) && Atomic(uses, r, newId).Ok?
    requires r.Add? ==> newId != id && Lookup(uses, newId) == None
    requires r.Restore? || r.Reset? ==> r.id != id
    requires r.Edit? && r.id == id && r.patch.resets.Some? ==> r.patch.resets.value == Lookup(uses, id).value.resets
    ensures Settled(uses, Atomic(uses, r, newId).value.0, id)
  {
    hide UpdateElement, Pull, Lookup, InRange;
    match r
    case Add(name, note, max, resets) => PushLookups(uses, LimitedUse(newId, name, note, max, max, resets), id);
    case Delete(x) => PresentUses(uses, x); PullLookups(uses, x, id);
    case Edit(x, patch) => ReplacedLookups(uses, x, SetPatch(patch), id);
    case Restore(x) => ReplacedLookups(uses, x, Inc(1), id);
    case Reset(x) => ReplacedLookups(uses, x, SetRemaining(Lookup(uses, x).value.max), id);
    case Spend(x) =>
      PresentUses(uses, x);
      PullLookups(uses, x, id);
      ReplacedLookups(uses, x, Inc(-1), id);
  }

  lemma PresentUses(uses: Uses, id: string)
    requires Lookup(uses, id).Some?
    ensures uses.Some?
  {
  }

  /** What a spender has found out by the time it is in a phase, if nothing was lifted since it began. */
  predicate Learned(p: Phase, uses: Uses, id: string) {
    var left, oneTime := LeftOf(uses, id), Lookup(uses, id).Some? ==> !Lookup(uses, id).value.resets;
    match p
    case Check(true) => left == 0 || (oneTime && left == 1)
    case TryRemove(false) => left == 0 || (oneTime && left == 1)
    case TryDecrement(false) => left == 0
    case Check(false) => left == 0
    case Done(outcome) => outcome == Failed(NoUsesLeft) ==> left == 0
    case _ => true
  }

  lemma SpenderLearns(uses: Uses, id: string, p: Phase, newId: string)
    requires UsesOk(uses) && PhaseOk(Spend(id), p) && !p.Done? && Learned(p, uses, id)
    ensures var (after, next) := StepRequest(uses, Spend(id), p, newId); Learned(next, after, id)
  {
    if uses.Some? {
      MatchIsLookup(uses, WithId(id));
      MatchIsLookup(uses, LastOneTime(id));
      MatchIsLookup(uses, Spendable(id));
    }
  }

  lemma LearnedSettles(p: Phase, before: Uses, after: Uses, id: string)
    requires UsesOk(after) && Learned(p, before, id) && Settled(before, after, id)
    ensures Learned(p, after, id)
  {
    NeverNegative(after, id);
  }

  /** The spender has begun and not ended. */
  predicate Midway(s: System, i: nat) {
    i < |s.clients| && s.clients[i].phase != TryRemove(true) && !s.clients[i].phase.Done?
  }

  /** Somebody lifts the entry while spender i is midway. */
  ghost predicate LiftedMidway(s: System, actions: seq<Action>, id: string, i: nat) {
    exists k :: 0 <= k < |actions| && Midway(Exec(s, actions[..k]), i) && Lifts(Exec(s, actions[..k]), actions[k], id)
  }

  lemma LiftedEarlier(s: System, actions: seq<Action>, id: string, i: nat)
    requires actions != []
    ensures LiftedMidway(s, Init(actions), id, i) ==> LiftedMidway(s, actions, id, i)
    ensures Midway(Exec(s, Init(actions)), i) && Lifts(Exec(s, Init(actions)), Last(actions), id) ==> LiftedMidway(s, actions, id, i)
  {
    hide Exec, Lifts;
    if LiftedMidway(s, Init(actions), id, i) {
      var k :| 0 <= k < |Init(actions)|
        && Midway(Exec(s, Init(actions)[..k]), i) && Lifts(Exec(s, Init(actions)[..k]), Init(actions)[k], id);
      assert Init(actions)[..k] == actions[..k];
    }
    assert actions[..|actions| - 1] == Init(actions) && actions[|actions| - 1] == Last(actions);
  }

  /** What spender i knows at any time of a run in which nothing is lifted while it is midway. */
  lemma {:induction false} SpenderKnows(s: System, actions: seq<Action>, id: string, i: nat)
    requires Initial(s) && i < |s.clients| && Spends(s.clients[i], id)
    requires !LiftedMidway(s, actions, id, i)
    ensures var t := Exec(s, actions);
      && |t.clients| == |s.clients| && Spends(t.clients[i], id)
      && (!t.clients[i].phase.Done? ==> Learned(t.clients[i].phase, t.uses, id))
      && (actions != [] && t.clients[i].phase.Done? ==>
            Exec(s, Init(actions)).clients[i].phase.Done? || Learned(t.clients[i].phase, t.uses, id))
  {
    if actions != [] {
      hide StepRequest, Learned, Settled, PhaseOk, UsesOk, Lifts, EffectsOf, Atomic, LiftedMidway;
      LiftedEarlier(s, actions, id, i);
      SpenderKnows(s, Init(actions), id, i);
      AlwaysConserved(s, Init(actions));
      AlwaysConserved(s, actions);
      var t, a := Exec(s, Init(actions)), Last(actions);
      if Enabled(t, a) && !t.clients[i].phase.Done? {
        assert PhaseOk(t.clients[i].request, t.clients[i].phase);
        if a.Act? && a.i == i {
          SpenderLearns(t.uses, id, t.clients[i].phase, a.newId);
        } else if Midway(t, i) {
          UnliftedStep(t, a, id);
          LearnedSettles(t.clients[i].phase, t.uses, Next(t, a).uses, id);
        } else {
          NothingLearnedYet(Next(t, a).uses, id);
        }
      }
    }
  }

  lemma NothingLearnedYet(uses: Uses, id: string)
    ensures Learned(TryRemove(true), uses, id)
  {
  }

  /** Among any requests, a spender ends with "no uses left" while uses remain only if the entry was
      restored, reset, switched or created between its first operation and its last. */
  lemma NoSpenderFailsInVain(s: System, actions: seq<Action>, id: string, i: nat)
    requires Initial(s) && i < |s.clients| && Spends(s.clients[i], id)
    requires actions != [] && i < |Exec(s, Init(actions)).clients| && !Exec(s, Init(actions)).clients[i].phase.Done?
    requires i < |Exec(s, actions).clients| && Exec(s, actions).clients[i].phase == Done(Failed(NoUsesLeft))
    ensures LeftOf(Exec(s, actions).uses, id) == 0 || LiftedMidway(s, actions, id, i)
  {
    if !LiftedMidway(s, actions, id, i) {
      SpenderKnows(s, actions, id, i);
    }
  }

  // ---------------------------------------------------------------- how many liftings it takes

  function LiftsMidway(s: System, actions: seq<Action>, id: string, i: nat): nat {
    if actions == [] then 0
    else
      var t := Exec(s, Init(actions));
      LiftsMidway(s, Init(actions), id, i) + (if Midway(t, i) && Lifts(t, Last(actions), id) then 1 else 0)
  }

  predicate OneTime(uses: Uses, id: string) {
    Lookup(uses, id).Some? && !Lookup(uses, id).value.resets
  }

  /** While spender i is midway the entry is not of the one-time kind. */
  predicate NeverOneTime(s: System, actions: seq<Action>, id: string, i: nat) {
    && (actions == [] || NeverOneTime(s, Init(actions), id, i))
    && !(Midway(Exec(s, actions), i) && OneTime(Exec(s, actions).uses, id))
  }

  /** What a spender has missed by the time it is in a phase, after n liftings. */
  predicate Missed(p: Phase, left: int, n: nat) {
    match p
    case Check(true) => left == 0 || n >= 1
    case TryRemove(false) => n >= 1
    case TryDecrement(false) => n >= 1
    case Check(false) => n >= 1 && (left == 0 || n >= 2)
    case Done(outcome) => outcome == Failed(NoUsesLeft) ==> left == 0 || n >= 2
    case _ => true
  }

  lemma SpenderMisses(uses: Uses, id: string, p: Phase, newId: string, n: nat)
    requires UsesOk(uses) && PhaseOk(Spend(id), p) && !p.Done? && Missed(p, LeftOf(uses, id), n)
    requires p != TryRemove(true) ==> !OneTime(uses, id)
    ensures var (after, next) := StepRequest(uses, Spend(id), p, newId); Missed(next, LeftOf(after, id), n)
  {
    NeverNegative(uses, id);
    if uses.Some? {
      MatchIsLookup(uses, WithId(id));
      MatchIsLookup(uses, LastOneTime(id));
      MatchIsLookup(uses, Spendable(id));
    }
  }

  /** A lifting is one more; anything else leaves no more uses than there were. */
  lemma OthersLift(s: System, a: Action, id: string, p: Phase, n: nat)
    requires Inv(s) && Enabled(s, a) && Inv(Next(s, a)) && !p.Done? && Missed(p, LeftOf(s.uses, id), n)
    ensures Missed(p, LeftOf(Next(s, a).uses, id), n + if Lifts(s, a, id) then 1 else 0)
  {
    hide Lifts, Next, Enabled;
    NeverNegative(Next(s, a).uses, id);
    if !Lifts(s, a, id) {
      UnliftedStep(s, a, id);
    }
  }

  lemma {:induction false} SpenderCounts(s: System, actions: seq<Action>, id: string, i: nat)
    requires Initial(s) && i < |s.clients| && Spends(s.clients[i], id) && NeverOneTime(s, actions, id, i)
    ensures var t, n := Exec(s, actions), LiftsMidway(s, actions, id, i);
      && |t.clients| == |s.clients| && Spends(t.clients[i], id)
      && (!t.clients[i].phase.Done? ==> Missed(t.clients[i].phase, LeftOf(t.uses, id), n))
      && (actions != [] && t.clients[i].phase.Done? ==>
            Exec(s, Init(actions)).clients[i].phase.Done? || Missed(t.clients[i].phase, LeftOf(t.uses, id), n))
  {
    if actions != [] {
      hide StepRequest, Missed, PhaseOk, UsesOk, EffectsOf, Atomic, OneTime;
      SpenderCounts(s, Init(actions), id, i);
      AlwaysConserved(s, Init(actions));
      AlwaysConserved(s, actions);
      var t, a, n := Exec(s, Init(actions)), Last(actions), LiftsMidway(s, Init(actions), id, i);
      if Enabled(t, a) && !t.clients[i].phase.Done? {
        assert PhaseOk(t.clients[i].request, t.clients[i].phase);
        if a.Act? && a.i == i {
          SpenderMisses(t.uses, id, t.clients[i].phase, a.newId, n);
        } else if Midway(t, i) {
          OthersLift(t, a, id, t.clients[i].phase, n);
        } else {
          NothingMissedYet(LeftOf(Next(t, a).uses, id), n);
        }
      }
    }
  }

  lemma NothingMissedYet(left: int, n: nat)
    ensures Missed(TryRemove(true), left, n)
  {
  }

  /** Of an entry that comes back on rest, and is not switched while the spender is midway, a use can be
      missed only if the entry is lifted twice meanwhile. */
  lemma TwoLiftsToFailInVain(s: System, actions: seq<Action>, id: string, i: nat)
    requires Initial(s) && i < |s.clients| && Spends(s.clients[i], id) && NeverOneTime(s, actions, id, i)
    requires actions != [] && i < |Exec(s, Init(actions)).clients| && !Exec(s, Init(actions)).clients[i].phase.Done?
    requires i < |Exec(s, actions).clients| && Exec(s, actions).clients[i].phase == Done(Failed(NoUsesLeft))
    ensures LeftOf(Exec(s, actions).uses, id) == 0 || LiftsMidway(s, actions, id, i) >= 2
  {
    SpenderCounts(s, actions, id, i);
  }
}
