/** Each limited-use request is one atomic effect, whatever happens between its store operations. */
module LimitedUseLaws {
  import opened Seqs
  import opened LimitedUses

  // ---------------------------------------------------------------- lookups and updates

  predicate Distinct(s: seq<LimitedUse>) {
    forall i, j :: 0 <= i < j < |s| ==> s[i].id != s[j].id
  }

  predicate InRange(u: LimitedUse) {
    0 <= u.remaining <= u.max && 1 <= u.max <= MAX_USES
  }

  /** The invariant of a stored list. */
  predicate UsesOk(uses: Uses) {
    uses.Some? ==>
      && |uses.value| <= MAX_COUNT
      && Distinct(uses.value)
      && forall i :: 0 <= i < |uses.value| ==> InRange(uses.value[i])
  }

  lemma SamePosition(s: seq<LimitedUse>, i: nat, k: nat)
    requires Distinct(s) && i < |s| && k < |s| && s[i].id == s[k].id
    ensures i == k
  {
  }

  /** With distinct ids a filter matches exactly the entry with its id, if that entry qualifies. */
  lemma MatchIsLookup(uses: Uses, f: Filter)
    requires UsesOk(uses) && uses.Some?
    ensures FirstMatch(uses.value, f) >= 0 <==> Lookup(uses, f.id).Some? && Matches(Lookup(uses, f.id).value, f)
    ensures FirstMatch(uses.value, f) >= 0 ==> uses.value[FirstMatch(uses.value, f)] == Lookup(uses, f.id).value
    ensures Lookup(uses, f.id).Some? ==> Lookup(uses, f.id).value.id == f.id && InRange(Lookup(uses, f.id).value)
  {
    var s := uses.value;
    var i, k := FirstMatch(s, f), FirstMatch(s, WithId(f.id));
    assert i >= 0 ==> Matches(s[i], WithId(f.id));
    assert k >= 0 ==> s[k].id == f.id;
    if i >= 0 && k >= 0 {
      SamePosition(s, i, k);
    }
  }

  /** The entry at a position is what its id is looked up to. */
  lemma LookupAt(uses: Uses, i: nat)
    requires uses.Some? && Distinct(uses.value) && i < |uses.value|
    ensures Lookup(uses, uses.value[i].id) == Some(uses.value[i])
  {
    var s := uses.value;
    var k := FirstMatch(s, WithId(s[i].id));
    assert Matches(s[i], WithId(s[i].id));
    assert k <= i && s[k].id == s[i].id;
  }

  lemma LookupNone(uses: Uses, id: string)
    ensures Lookup(uses, id) == None
      <==> (uses.Some? ==> forall i :: 0 <= i < |uses.value| ==> uses.value[i].id != id)
  {
    if uses.Some? {
      assert forall i :: 0 <= i < |uses.value| ==> (Matches(uses.value[i], WithId(id)) <==> uses.value[i].id == id);
    }
  }

  /** Replacing an entry in place changes only what its own id is looked up to. */
  lemma UpdateLookups(uses: Uses, f: Filter, op: Update, y: string)
    requires UsesOk(uses) && UpdateElement(uses, f, op).1.Some?
    ensures Lookup(uses, f.id).Some? && UpdateElement(uses, f, op).1.value == Updated(Lookup(uses, f.id).value, op)
    ensures Lookup(UpdateElement(uses, f, op).0, y)
      == if y == f.id then UpdateElement(uses, f, op).1 else Lookup(uses, y)
    ensures Distinct(UpdateElement(uses, f, op).0.value)
  {
    var s, i := uses.value, FirstMatch(uses.value, f);
    MatchIsLookup(uses, f);
    var t := s[i := Updated(s[i], op)];
    assert Updated(s[i], op).id == s[i].id;
    assert forall k :: 0 <= k < |s| ==> t[k].id == s[k].id;
    LookupNone(uses, y);
    LookupNone(Some(t), y);
    if k :| 0 <= k < |s| && s[k].id == y {
      LookupAt(uses, k);
      LookupAt(Some(t), k);
      assert y == f.id ==> k == i;
    }
  }

  lemma {:induction false} PullElems(s: seq<LimitedUse>, id: string)
    requires Distinct(s)
    ensures Distinct(Pull(s, id)) && |Pull(s, id)| <= |s|
    ensures forall u :: u in Pull(s, id) <==> u in s && u.id != id
  {
    if s != [] {
      assert s == Init(s) + [Last(s)];
      PullElems(Init(s), id);
      assert forall u :: u in Init(s) ==> u.id != Last(s).id;
    }
  }

  lemma LookupIn(uses: Uses, id: string, u: LimitedUse)
    requires uses.Some? && Distinct(uses.value) && u in uses.value && u.id == id
    ensures Lookup(uses, id) == Some(u)
  {
    var i :| 0 <= i < |uses.value| && uses.value[i] == u;
    LookupAt(uses, i);
  }

  lemma PullLookups(uses: Uses, id: string, y: string)
    requires uses.Some? && Distinct(uses.value)
    ensures Lookup(Some(Pull(uses.value, id)), y) == if y == id then None else Lookup(uses, y)
  {
    var t := Pull(uses.value, id);
    PullElems(uses.value, id);
    LookupNone(Some(t), y);
    LookupNone(uses, y);
    if y == id {
      forall i | 0 <= i < |t| ensures t[i].id != id {
        assert t[i] in t;
      }
    } else if i :| 0 <= i < |uses.value| && uses.value[i].id == y {
      assert uses.value[i] in t;
      LookupAt(uses, i);
      LookupIn(Some(t), y, uses.value[i]);
    } else {
      forall i | 0 <= i < |t| ensures t[i].id != y {
        assert t[i] in uses.value;
      }
    }
  }

  lemma PushLookups(uses: Uses, u: LimitedUse, y: string)
    requires uses.Some? && Distinct(uses.value) && Lookup(uses, u.id) == None
    ensures Distinct(uses.value + [u])
    ensures Lookup(Some(uses.value + [u]), y) == if y == u.id then Some(u) else Lookup(uses, y)
  {
    var t := uses.value + [u];
    LookupNone(uses, u.id);
    LookupNone(uses, y);
    LookupNone(Some(t), y);
    if y == u.id {
      LookupAt(Some(t), |uses.value|);
    } else if i :| 0 <= i < |uses.value| && uses.value[i].id == y {
      LookupAt(uses, i);
      LookupAt(Some(t), i);
    }
  }

  // ---------------------------------------------------------------- what a request means

  /** The array with the entry `id` changed in place. */
  function Replaced(uses: Uses, id: string, op: Update): (Uses, Outcome)
    requires Lookup(uses, id).Some?
  {
    var (after, item) := UpdateElement(uses, WithId(id), op);
    (after, match item case Some(u) => Item(u) case None => Failed(NotFound))
  }

  /** The request as one atomic operation. */
  function Atomic(uses: Uses, r: Request, newId: string): Result<(Uses, Outcome), Error> {
    if r.Add? then
      var u := LimitedUse(newId, r.name, r.note, r.max, r.max, r.resets);
      if uses == None then Err(NoPlayer)
      else if |uses.value| >= MAX_COUNT then Err(LimitReached)
      else Ok((Some(uses.value + [u]), Item(u)))
    else if Lookup(uses, r.id) == None then Err(NotFound)
    else
      var u := Lookup(uses, r.id).value;
      match r
      case Edit(id, patch) => Ok(Replaced(uses, id, SetPatch(patch)))
      case Delete(id) => Ok((Some(Pull(uses.value, id)), Removed))
      case Spend(id) =>
        if u.remaining == 0 then Err(NoUsesLeft)
        else if u.remaining == 1 && !u.resets then Ok((Some(Pull(uses.value, id)), Removed))
        else Ok(Replaced(uses, id, Inc(-1)))
      case Restore(id) =>
        if u.remaining == u.max then Err(AlreadyFull) else Ok(Replaced(uses, id, Inc(1)))
      case Reset(id) =>
        if !u.resets then Err(NotResettable) else Ok(Replaced(uses, id, SetRemaining(u.max)))
  }

  /** The phases a request can be in, with what a compare-and-set has seen. */
  predicate PhaseOk(r: Request, p: Phase) {
    p.Done? ||
    (WellFormed(r) &&
     match p
     case Only => r.Add? || r.Edit? || r.Delete?
     case CountPlayer => r.Add?
     case TryRemove(_) => r.Spend?
     case TryDecrement(_) => r.Spend?
     case Check(_) => r.Spend?
     case CasRead(attempt) => (r.Restore? || r.Reset?) && attempt < CAS_ATTEMPTS
     case CasWrite(attempt, seen) =>
       (r.Restore? || r.Reset?) && attempt < CAS_ATTEMPTS && InRange(seen) && Wanted(r, seen).Ok?
     case Done(_) => true)
  }

  lemma PhasesFollow(uses: Uses, r: Request, p: Phase, newId: string)
    requires UsesOk(uses) && PhaseOk(r, p) && !p.Done?
    ensures PhaseOk(r, StepRequest(uses, r, p, newId).1)
  {
    if p.CasRead? && uses.Some? {
      MatchIsLookup(uses, WithId(r.id));
    }
  }

  predicate Succeeds(p: Phase) {
    p.Done? && !p.outcome.Failed?
  }

  /** A store operation either completes its request, and then it is exactly the atomic effect of the
      request on the document it found, or it writes nothing. That the document has changed and changed
      back since a compare-and-set read it does no harm: the effect depends only on what is compared. */
  lemma OperationIsAtomic(uses: Uses, r: Request, p: Phase, newId: string)
    requires UsesOk(uses) && PhaseOk(r, p) && !p.Done?
    ensures var (after, next) := StepRequest(uses, r, p, newId);
      if Succeeds(next) then Atomic(uses, r, newId) == Ok((after, next.outcome)) else after == uses
  {
    if uses.Some? && !r.Add? {
      MatchIsLookup(uses, WithId(r.id));
      match p
      case TryRemove(_) => MatchIsLookup(uses, LastOneTime(r.id));
      case TryDecrement(_) =>
        MatchIsLookup(uses, Spendable(r.id));
        SameElement(uses, Spendable(r.id));
      case CasWrite(_, seen) =>
        var f := Unchanged(r.id, seen.remaining, seen.max, r.Reset?);
        MatchIsLookup(uses, f);
        SameElement(uses, f);
      case _ =>
    }
  }

  lemma SameElement(uses: Uses, f: Filter)
    requires UsesOk(uses) && uses.Some?
    ensures FirstMatch(uses.value, f) >= 0 ==> FirstMatch(uses.value, f) == FirstMatch(uses.value, WithId(f.id))
  {
    var s := uses.value;
    var i, k := FirstMatch(s, f), FirstMatch(s, WithId(f.id));
    if i >= 0 {
      assert Matches(s[i], WithId(f.id));
      assert k >= 0 && s[k].id == s[i].id && k <= i;
    }
  }

  /** A failure is right about the document it was decided on. The exceptions are Changed, which only
      says that two compare-and-sets missed, a full list that has room again when the player is counted,
      and a second miss while a use remains. */
  lemma FailureIsRight(uses: Uses, r: Request, p: Phase, newId: string)
    requires UsesOk(uses) && PhaseOk(r, p) && !p.Done?
    ensures var (after, next) := StepRequest(uses, r, p, newId);
      next.Done? && next.outcome.Failed? ==>
        || Atomic(uses, r, newId) == Err(next.outcome.error)
        || next.outcome.error == Changed
        || (next.outcome.error == LimitReached && p == CountPlayer && uses.Some?)
        || (next.outcome.error == NoUsesLeft && p == Check(false)
            && Lookup(uses, r.id).Some? && Lookup(uses, r.id).value.remaining > 0)
  {
    if uses.Some? && !r.Add? {
      MatchIsLookup(uses, WithId(r.id));
    }
  }

  /** The list stays in range, duplicate-free and bounded under every atomic effect. */
  lemma AtomicKeepsUses(uses: Uses, r: Request, newId: string)
    requires UsesOk(uses) && WellFormed(r) && Atomic(uses, r, newId).Ok?
    requires r.Add? ==> Lookup(uses, newId) == None
    ensures UsesOk(Atomic(uses, r, newId).value.0)
  {
    match r
    case Add(name, note, max, resets) =>
      PushLookups(uses, LimitedUse(newId, name, note, max, max, resets), newId);
    case Delete(id) => PullInRange(uses, id);
    case Edit(id, patch) => ReplacedInRange(uses, id, SetPatch(patch));
    case Spend(id) =>
      var u := Lookup(uses, id).value;
      MatchIsLookup(uses, WithId(id));
      if u.remaining == 1 && !u.resets { PullInRange(uses, id); } else { ReplacedInRange(uses, id, Inc(-1)); }
    case Restore(id) =>
      MatchIsLookup(uses, WithId(id));
      ReplacedInRange(uses, id, Inc(1));
    case Reset(id) =>
      MatchIsLookup(uses, WithId(id));
      ReplacedInRange(uses, id, SetRemaining(Lookup(uses, id).value.max));
  }

  lemma PullInRange(uses: Uses, id: string)
    requires UsesOk(uses) && uses.Some?
    ensures UsesOk(Some(Pull(uses.value, id)))
  {
    var t := Pull(uses.value, id);
    PullElems(uses.value, id);
    forall i | 0 <= i < |t| ensures InRange(t[i]) {
      assert t[i] in uses.value;
    }
  }

  lemma ReplacedInRange(uses: Uses, id: string, op: Update)
    requires UsesOk(uses) && Lookup(uses, id).Some? && InRange(Updated(Lookup(uses, id).value, op))
    ensures UsesOk(Replaced(uses, id, op).0) && Replaced(uses, id, op).0.Some?
    ensures Replaced(uses, id, op).1 == Item(Updated(Lookup(uses, id).value, op))
  {
    UpdateLookups(uses, WithId(id), op, id);
  }
}
