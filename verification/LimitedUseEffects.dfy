/** What an accepted request leaves of a player's list, entry by entry and field by field. */
module LimitedUseEffects {
  import opened Seqs
  import opened LimitedUses
  import opened LimitedUseLaws
  import opened LimitedUseRuns

  /** A request is let through exactly with a name of 1 to 60 characters, a note of up to 200 and a maximum of
      1 to 99, wherever it names them; an edit must name something. */
  lemma LetThrough(r: Request)
    ensures FirstPhase(r) != Done(Failed(BadRequest)) <==>
      match r
      case Add(name, note, max, _) => 1 <= |name| <= 60 && |note| <= 200 && 1 <= max <= 99
      case Edit(_, p) =>
        && (p.name.Some? ==> 1 <= |p.name.value| <= 60) && (p.note.Some? ==> |p.note.value| <= 200)
        && (p.max.Some? ==> 1 <= p.max.value <= 99) && p != Patch(None, None, None, None)
      case _ => true
  {
  }

  /** Adding appends an unused entry, unless there is no player or the player has fifty entries. */
  lemma AddIsStored(uses: Uses, r: Request, newId: string)
    requires r.Add?
    ensures match Atomic(uses, r, newId)
      case Err(e) => if uses == None then e == NoPlayer else e == LimitReached && |uses.value| >= 50
      case Ok((after, outcome)) =>
        && uses.Some? && |uses.value| < 50 && outcome.Item? && after == Some(uses.value + [outcome.item])
        && var u := outcome.item;
        && u.id == newId && u.name == r.name && u.note == r.note && u.resets == r.resets
        && u.max == r.max && u.remaining == r.max
  {
  }

  predicate EntryAt(uses: Uses, i: int, id: string) {
    uses.Some? && 0 <= i < |uses.value| && uses.value[i].id == id
  }

  /** Every other entry is as it was. */
  predicate OnlyChanges(uses: Uses, after: Uses, i: int) {
    uses.Some? && after.Some? && |after.value| == |uses.value|
    && forall k :: 0 <= k < |uses.value| && k != i ==> after.value[k] == uses.value[k]
  }

  /** Entry i is gone and the others are as they were. */
  predicate OnlyRemoves(uses: Uses, after: Uses, i: int) {
    uses.Some? && 0 <= i < |uses.value| && after == Some(uses.value[..i] + uses.value[i + 1..])
  }

  lemma FoundAt(uses: Uses, id: string) returns (i: int)
    requires UsesOk(uses)
    ensures Lookup(uses, id).None? ==> forall k :: !EntryAt(uses, k, id)
    ensures Lookup(uses, id).Some? ==> EntryAt(uses, i, id) && Lookup(uses, id).value == uses.value[i] && InRange(uses.value[i])
    ensures Lookup(uses, id).Some? ==> i == FirstMatch(uses.value, WithId(id))
  {
    LookupNone(uses, id);
    i := if uses.Some? then FirstMatch(uses.value, WithId(id)) else -1;
  }

  /** All other requests fail as not found exactly if there is no such entry. */
  lemma MissingIsNotFound(uses: Uses, r: Request, newId: string)
    requires UsesOk(uses) && !r.Add?
    ensures Atomic(uses, r, newId) == Err(NotFound) <==> forall i :: !EntryAt(uses, i, r.id)
  {
    var i := FoundAt(uses, r.id);
  }

  /** v has the fields the patch names, and u's where it names none. */
  predicate Takes(u: LimitedUse, p: Patch, v: LimitedUse) {
    && v.id == u.id
    && v.name == (if p.name.Some? then p.name.value else u.name)
    && v.note == (if p.note.Some? then p.note.value else u.note)
    && v.resets == (if p.resets.Some? then p.resets.value else u.resets)
    && v.max == (if p.max.Some? then p.max.value else u.max)
    && v.remaining == (if p.max.Some? && p.max.value < u.remaining then p.max.value else u.remaining)
  }

  /** An edit changes the fields it names; a smaller maximum takes remaining uses with it. */
  lemma EditIsStored(uses: Uses, r: Request, newId: string, i: int)
    requires UsesOk(uses) && r.Edit? && EntryAt(uses, i, r.id)
    ensures Atomic(uses, r, newId).Ok?
    ensures var (after, outcome) := Atomic(uses, r, newId).value;
      OnlyChanges(uses, after, i) && outcome == Item(after.value[i]) && Takes(uses.value[i], r.patch, after.value[i])
  {
    var k := FoundAt(uses, r.id);
    SamePosition(uses.value, i, k);
  }

  lemma {:induction false} PulledAt(s: seq<LimitedUse>, i: nat)
    requires Distinct(s) && i < |s|
    ensures Pull(s, s[i].id) == s[..i] + s[i + 1..]
  {
    var id := s[i].id;
    if i == |s| - 1 {
      NothingPulled(Init(s), id);
      assert Init(s) == s[..i];
    } else {
      PulledAt(Init(s), i);
      assert Init(s)[..i] == s[..i] && Init(s)[i + 1..] + [Last(s)] == s[i + 1..];
    }
  }

  lemma {:induction false} NothingPulled(s: seq<LimitedUse>, id: string)
    requires forall k :: 0 <= k < |s| ==> s[k].id != id
    ensures Pull(s, id) == s
  {
    if s != [] {
      NothingPulled(Init(s), id);
      assert s == Init(s) + [Last(s)];
    }
  }

  /** A deletion takes the entry and no other. */
  lemma DeleteIsStored(uses: Uses, r: Request, newId: string, i: int)
    requires UsesOk(uses) && r.Delete? && EntryAt(uses, i, r.id)
    ensures Atomic(uses, r, newId).Ok?
    ensures var (after, outcome) := Atomic(uses, r, newId).value; OnlyRemoves(uses, after, i) && outcome == Removed
  {
    var k := FoundAt(uses, r.id);
    PulledAt(uses.value, i);
  }

  /** A spend takes one use, the last one of a one-time entry together with the entry; without a use it
      fails. */
  lemma SpendIsStored(uses: Uses, r: Request, newId: string, i: int)
    requires UsesOk(uses) && r.Spend? && EntryAt(uses, i, r.id)
    ensures var u := uses.value[i];
      match Atomic(uses, r, newId)
      case Err(e) => e == NoUsesLeft && u.remaining == 0
      case Ok((after, outcome)) =>
        && u.remaining >= 1
        && if u.remaining == 1 && !u.resets then OnlyRemoves(uses, after, i) && outcome == Removed
           else OnlyChanges(uses, after, i) && outcome == Item(after.value[i])
                && after.value[i].remaining + 1 == u.remaining && after.value[i] == u.(remaining := after.value[i].remaining)
  {
    var k := FoundAt(uses, r.id);
    SamePosition(uses.value, i, k);
    PulledAt(uses.value, i);
    hide Pull;
  }

  /** A restore gives one use back, up to the maximum. */
  lemma RestoreIsStored(uses: Uses, r: Request, newId: string, i: int)
    requires UsesOk(uses) && r.Restore? && EntryAt(uses, i, r.id)
    ensures var u := uses.value[i];
      match Atomic(uses, r, newId)
      case Err(e) => e == AlreadyFull && u.remaining == u.max
      case Ok((after, outcome)) =>
        && u.remaining < u.max && OnlyChanges(uses, after, i) && outcome == Item(after.value[i])
        && after.value[i].remaining == u.remaining + 1 && after.value[i] == u.(remaining := after.value[i].remaining)
  {
    var k := FoundAt(uses, r.id);
    SamePosition(uses.value, i, k);
  }

  /** A reset gives all uses back to an entry that comes back on rest. */
  lemma ResetIsStored(uses: Uses, r: Request, newId: string, i: int)
    requires UsesOk(uses) && r.Reset? && EntryAt(uses, i, r.id)
    ensures var u := uses.value[i];
      match Atomic(uses, r, newId)
      case Err(e) => e == NotResettable && !u.resets
      case Ok((after, outcome)) =>
        && u.resets && OnlyChanges(uses, after, i) && outcome == Item(after.value[i])
        && after.value[i].remaining == u.max && after.value[i] == u.(remaining := after.value[i].remaining)
  {
    var k := FoundAt(uses, r.id);
    SamePosition(uses.value, i, k);
  }

  // ---------------------------------------------------------------- giving up

  /** Reads and writes of a compare-and-set alternate, and it gives up after the second of each. */
  predicate CasCounted(p: Phase, operations: nat) {
    match p
    case CasRead(attempt) => operations == 2 * attempt
    case CasWrite(attempt, _) => operations == 2 * attempt + 1
    case Done(outcome) => outcome == Failed(Changed) ==> operations == 4
    case _ => true
  }

  lemma CasStepCounts(uses: Uses, r: Request, p: Phase, newId: string, operations: nat)
    requires UsesOk(uses) && PhaseOk(r, p) && !p.Done? && CasCounted(p, operations)
    ensures CasCounted(StepRequest(uses, r, p, newId).1, operations + 1)
  {
  }

  /** A restore or reset reports a change underneath it only after two reads and two writes that missed. */
  lemma {:induction false} ChangedAfterFourOperations(s: System, actions: seq<Action>, i: nat)
    requires Initial(s) && i < |s.clients|
    ensures var t := Exec(s, actions);
      |t.clients| == |s.clients| && CasCounted(t.clients[i].phase, Operations(s, actions, i))
  {
    hide StepRequest, PhaseOk, EffectsOf, Atomic, CasCounted, UsesOk;
    if actions == [] {
      FirstIsCounted(s.clients[i].request);
    } else {
      ChangedAfterFourOperations(s, Init(actions), i);
      AlwaysConserved(s, Init(actions));
      var t, a := Exec(s, Init(actions)), Last(actions);
      if a.Act? && a.i == i && Enabled(t, a) {
        assert PhaseOk(t.clients[i].request, t.clients[i].phase);
        CasStepCounts(t.uses, t.clients[i].request, t.clients[i].phase, a.newId, Operations(s, Init(actions), i));
      }
    }
  }

  lemma FirstIsCounted(r: Request)
    ensures CasCounted(FirstPhase(r), 0)
  {
  }
}
