/** A player's limited uses: internal/store/player_limited_uses.go. The store offers single-document
    updates only; spending, restoring and resetting are small programs of such updates. */
module LimitedUses {
  import opened Seqs

  const MAX_USES := 99
  const MAX_COUNT := 50

  datatype LimitedUse = LimitedUse(id: string, name: string, note: string, max: int, remaining: int, resets: bool)

  /** The limitedUses array of one player; None when the player does not exist. */
  type Uses = Option<seq<LimitedUse>>

  datatype Patch = Patch(name: Option<string>, note: Option<string>, max: Option<int>, resets: Option<bool>)

  datatype Error = NotFound | NoUsesLeft | AlreadyFull | NotResettable | LimitReached | Changed | NoPlayer | BadRequest

  datatype Outcome = Item(item: LimitedUse) | Removed | Failed(error: Error)

  // ---------------------------------------------------------------- single-document updates

  /** The element filters the store uses. */
  datatype Filter =
    | WithId(id: string)
    | LastOneTime(id: string)                                             // resets: false, remaining: 1
    | Spendable(id: string)                                               // remaining > 0, resets or remaining > 1
    | Unchanged(id: string, remaining: int, max: int, resettable: bool)   // compare-and-set

  predicate Matches(u: LimitedUse, f: Filter) {
    u.id == f.id &&
    match f
    case WithId(_) => true
    case LastOneTime(_) => !u.resets && u.remaining == 1
    case Spendable(_) => u.remaining > 0 && (u.resets || u.remaining > 1)
    case Unchanged(_, remaining, max, resettable) =>
      u.remaining == remaining && u.max == max && (resettable ==> u.resets)
  }

  /** The position the positional operator refers to: the first match, or -1. */
  function FirstMatch(s: seq<LimitedUse>, f: Filter): (i: int)
    ensures -1 <= i < |s|
    ensures i >= 0 ==> Matches(s[i], f)
    ensures forall k :: 0 <= k < |s| && (i < 0 || k < i) ==> !Matches(s[k], f)
  {
    FirstAt(s, (u: LimitedUse) => Matches(u, f))
  }

  function Pull(s: seq<LimitedUse>, id: string): seq<LimitedUse> {
    if s == [] then [] else Pull(Init(s), id) + (if Last(s).id == id then [] else [Last(s)])
  }

  function Patched(u: LimitedUse, p: Patch): LimitedUse {
    var m := p.max.GetOr(u.max);
    LimitedUse(u.id, p.name.GetOr(u.name), p.note.GetOr(u.note), m,
               if p.max.Some? && u.remaining > m then m else u.remaining, p.resets.GetOr(u.resets))
  }

  datatype Update = Inc(amount: int) | SetRemaining(to: int) | SetPatch(patch: Patch)

  function Updated(u: LimitedUse, op: Update): LimitedUse {
    match op
    case Inc(n) => u.(remaining := u.remaining + n)
    case SetRemaining(n) => u.(remaining := n)
    case SetPatch(p) => Patched(u, p)
  }

  /** FindOneAndUpdate on one element: the new array and the updated element, or no match. */
  function UpdateElement(uses: Uses, f: Filter, op: Update): (Uses, Option<LimitedUse>) {
    if uses == None || FirstMatch(uses.value, f) < 0 then (uses, None)
    else
      var i := FirstMatch(uses.value, f);
      (Some(uses.value[i := Updated(uses.value[i], op)]), Some(Updated(uses.value[i], op)))
  }

  /** UpdateOne with $pull: all elements of this id go, if some element matches. */
  function PullWhere(uses: Uses, f: Filter): (Uses, bool) {
    if uses == None || FirstMatch(uses.value, f) < 0 then (uses, false) else (Some(Pull(uses.value, f.id)), true)
  }

  /** $push unless position 49 exists. */
  function PushIfRoom(uses: Uses, u: LimitedUse): (Uses, bool) {
    if uses == None || |uses.value| >= MAX_COUNT then (uses, false) else (Some(uses.value + [u]), true)
  }

  function Lookup(uses: Uses, id: string): Option<LimitedUse> {
    if uses == None || FirstMatch(uses.value, WithId(id)) < 0 then None
    else Some(uses.value[FirstMatch(uses.value, WithId(id))])
  }

  // ---------------------------------------------------------------- the requests as programs

  datatype Request =
    | Add(name: string, note: string, max: int, resets: bool)
    | Edit(id: string, patch: Patch)
    | Delete(id: string)
    | Spend(id: string)
    | Restore(id: string)
    | Reset(id: string)

  /** What the handlers' parsing lets through. */
  predicate WellFormed(r: Request) {
    match r
    case Add(name, note, max, _) => 1 <= |name| <= 60 && |note| <= 200 && 1 <= max <= MAX_USES
    case Edit(_, p) =>
      && (p.name.Some? ==> 1 <= |p.name.value| <= 60) && (p.note.Some? ==> |p.note.value| <= 200)
      && (p.max.Some? ==> 1 <= p.max.value <= MAX_USES)
      && (p.name.Some? || p.note.Some? || p.max.Some? || p.resets.Some?)
    case _ => true
  }

  /** Where a request stands; each phase is one store operation. */
  datatype Phase =
    | Only                                   // Add, Edit, Delete: the single update
    | CountPlayer                            // Add: why was there no room
    | TryRemove(retry: bool)
    | TryDecrement(retry: bool)
    | Check(retry: bool)
    | CasRead(attempt: nat)
    | CasWrite(attempt: nat, seen: LimitedUse)
    | Done(outcome: Outcome)

  const CAS_ATTEMPTS := 2

  function FirstPhase(r: Request): Phase {
    if !WellFormed(r) then Done(Failed(BadRequest))
    else match r
      case Spend(_) => TryRemove(true)
      case Restore(_) => CasRead(0)
      case Reset(_) => CasRead(0)
      case _ => Only
  }

  /** The new remaining value a compare-and-set request wants to write, or why it gives up. */
  function Wanted(r: Request, seen: LimitedUse): Result<int, Error> {
    if r.Restore? then (if seen.remaining >= seen.max then Err(AlreadyFull) else Ok(seen.remaining + 1))
    else if !seen.resets then Err(NotResettable)
    else Ok(seen.max)
  }

  function ItemOr(item: Option<LimitedUse>, otherwise: Phase): Phase {
    match item case Some(u) => Done(Item(u)) case None => otherwise
  }

  function TargetId(r: Request, newId: string): string {
    match r case Add(_, _, _, _) => newId case _ => r.id
  }

  /** One store operation of a request. `newId` is the id an added entry gets. */
  function StepRequest(uses: Uses, r: Request, p: Phase, newId: string): (Uses, Phase)
    requires !p.Done?
  {
    var id := TargetId(r, newId);
    match p
    case Only =>
      if r.Add? then
        var u := LimitedUse(newId, r.name, r.note, r.max, r.max, r.resets);
        var (after, pushed) := PushIfRoom(uses, u);
        (after, if pushed then Done(Item(u)) else CountPlayer)
      else if r.Edit? then
        var (after, item) := UpdateElement(uses, WithId(id), SetPatch(r.patch));
        (after, ItemOr(item, Done(Failed(NotFound))))
      else
        var (after, found) := PullWhere(uses, WithId(id));
        (after, Done(if found then Removed else Failed(NotFound)))
    case CountPlayer => (uses, Done(Failed(if uses == None then NoPlayer else LimitReached)))
    case TryRemove(retry) =>
      var (after, removed) := PullWhere(uses, LastOneTime(id));
      (after, if removed then Done(Removed) else TryDecrement(retry))
    case TryDecrement(retry) =>
      var (after, item) := UpdateElement(uses, Spendable(id), Inc(-1));
      (after, ItemOr(item, Check(retry)))
    case Check(retry) =>
      var cur := Lookup(uses, id);
      (uses,
       if cur == None then Done(Failed(NotFound))
       else if cur.value.remaining > 0 && retry then TryRemove(false)
       else Done(Failed(NoUsesLeft)))
    case CasRead(attempt) =>
      var cur := Lookup(uses, id);
      (uses,
       if cur == None then Done(Failed(NotFound))
       else match Wanted(r, cur.value)
         case Err(e) => Done(Failed(e))
         case Ok(_) => CasWrite(attempt, cur.value))
    case CasWrite(attempt, seen) =>
      var to := match Wanted(r, seen) case Ok(n) => n case Err(_) => seen.remaining;
      var (after, item) := UpdateElement(uses, Unchanged(id, seen.remaining, seen.max, r.Reset?), SetRemaining(to));
      (after, ItemOr(item, if attempt + 1 < CAS_ATTEMPTS then CasRead(attempt + 1) else Done(Failed(Changed))))
  }

  /** The whole request when its operations meet worlds[0], worlds[1], ...: the document it leaves and
      where it stands. */
  function Drive(worlds: seq<Uses>, r: Request, p: Phase, uses: Uses): (Uses, Phase) {
    if worlds == [] || p.Done? then (uses, p)
    else
      var (after, next) := StepRequest(worlds[0], r, p, "");
      Drive(worlds[1..], r, next, after)
  }

  /** The k-th operation of a request, once it is known what it does. */
  lemma DriveOn(worlds: seq<Uses>, k: nat, r: Request, p: Phase, uses: Uses, after: Uses, next: Phase)
    requires k < |worlds| && !p.Done? && StepRequest(worlds[k], r, p, "") == (after, next)
    ensures Drive(worlds[k..], r, p, uses) == Drive(worlds[k + 1..], r, next, after)
    ensures next.Done? ==> Drive(worlds[k..], r, p, uses) == (after, next)
  {
    assert worlds[k..][1..] == worlds[k + 1..];
  }

  // ---------------------------------------------------------------- the store's own code

  /** Entry i, the first to match, is updated to u and everything else stays. */
  predicate ChangesFirst(s: seq<LimitedUse>, f: Filter, op: Update, i: int, after: Uses, u: LimitedUse) {
    && 0 <= i < |s| && Matches(s[i], f) && (forall k :: 0 <= k < i ==> !Matches(s[k], f))
    && u == Updated(s[i], op) && after == Some(s[i := u])
  }

  /** What the positional update of one element does to the array. */
  ghost predicate UpdatesFirstMatch(before: Uses, f: Filter, op: Update, after: Uses, item: Option<LimitedUse>) {
    if item == None then
      after == before && (before.Some? ==> forall k :: 0 <= k < |before.value| ==> !Matches(before.value[k], f))
    else
      before.Some? && exists i :: ChangesFirst(before.value, f, op, i, after, item.value)
  }

  /** There is only one way to do that. */
  lemma FirstMatchUpdated(before: Uses, f: Filter, op: Update, after: Uses, item: Option<LimitedUse>)
    requires UpdatesFirstMatch(before, f, op, after, item)
    ensures (after, item) == UpdateElement(before, f, op)
  {
    if item.Some? {
      var i :| ChangesFirst(before.value, f, op, i, after, item.value);
      assert FirstMatch(before.value, f) == i;
    }
  }

  class PlayerStore {
    var uses: Uses

    /** Updates the first element that matches, and no other; without a match nothing happens. */
    method UpdateOneElement(f: Filter, op: Update) returns (item: Option<LimitedUse>)
      modifies this
      ensures UpdatesFirstMatch(old(uses), f, op, uses, item)
    {
      if uses == None { return None; }
      for i := 0 to |uses.value|
        invariant uses == old(uses)
        invariant forall k :: 0 <= k < i ==> !Matches(uses.value[k], f)
      {
        if Matches(uses.value[i], f) {
          var u := Updated(uses.value[i], op);
          uses := Some(uses.value[i := u]);
          assert ChangesFirst(old(uses).value, f, op, i, uses, u);
          return Some(u);
        }
      }
      item := None;
    }

    method PullOne(f: Filter) returns (modified: bool)
      modifies this
      ensures (uses, modified) == PullWhere(old(uses), f)
    {
      modified := uses != None && FirstMatch(uses.value, f) >= 0;
      if modified {
        uses := Some(Pull(uses.value, f.id));
      }
    }

    /** One level of the recursion of spendLimitedUse. worlds[k] is what the other requests have made of
        the document when its k-th store operation runs. */
    method SpendOnce(id: string, retry: bool, worlds: seq<Uses>) returns (outcome: Outcome)
      requires |worlds| >= if retry then 6 else 3
      modifies this
      ensures Drive(worlds, Spend(id), TryRemove(retry), old(uses)) == (uses, Done(outcome))
      decreases retry
    {
      hide Drive, UpdatesFirstMatch;
      ghost var r, before := Spend(id), uses;
      assert worlds[0..] == worlds;
      uses := worlds[0];
      var removed := PullOne(LastOneTime(id));
      DriveOn(worlds, 0, r, TryRemove(retry), before, uses, if removed then Done(Removed) else TryDecrement(retry));
      if removed { return Removed; }
      uses := worlds[1];
      var item := UpdateOneElement(Spendable(id), Inc(-1));
      FirstMatchUpdated(worlds[1], Spendable(id), Inc(-1), uses, item);
      DriveOn(worlds, 1, r, TryDecrement(retry), worlds[0], uses, ItemOr(item, Check(retry)));
      if item != None { return Item(item.value); }
      uses := worlds[2];
      var cur := Lookup(uses, id);
      DriveOn(worlds, 2, r, Check(retry), worlds[1], uses, StepRequest(uses, r, Check(retry), "").1);
      if cur == None { return Failed(NotFound); }
      if cur.value.remaining > 0 && retry {
        outcome := SpendOnce(id, false, worlds[3..]);
        return;
      }
      outcome := Failed(NoUsesLeft);
    }

    /** casLimitedUseWith: read, decide, write only if nothing relevant changed, at most twice. */
    method CompareAndSet(r: Request, worlds: seq<Uses>) returns (outcome: Outcome)
      requires (r.Restore? || r.Reset?) && |worlds| == 2 * CAS_ATTEMPTS
      modifies this
      ensures Drive(worlds, r, CasRead(0), old(uses)) == (uses, Done(outcome))
    {
      hide UpdateElement, Lookup, PullWhere, PushIfRoom, UpdatesFirstMatch;
      ghost var result := Drive(worlds, r, CasRead(0), uses);
      assert worlds[0..] == worlds;
      for attempt := 0 to CAS_ATTEMPTS
        invariant result == Drive(worlds[2 * attempt..], r,
                                  if attempt < CAS_ATTEMPTS then CasRead(attempt) else Done(Failed(Changed)), uses)
      {
        hide Drive;
        ghost var before, k := uses, 2 * attempt;
        uses := worlds[2 * attempt];
        var cur := Lookup(uses, r.id);
        DriveOn(worlds, k, r, CasRead(attempt), before, uses, StepRequest(uses, r, CasRead(attempt), "").1);
        if cur == None { return Failed(NotFound); }
        var wanted := Wanted(r, cur.value);
        if wanted.Err? { return Failed(wanted.error); }
        before := uses;
        uses := worlds[2 * attempt + 1];
        var f := Unchanged(r.id, cur.value.remaining, cur.value.max, r.Reset?);
        var item := UpdateOneElement(f, SetRemaining(wanted.value));
        FirstMatchUpdated(worlds[k + 1], f, SetRemaining(wanted.value), uses, item);
        DriveOn(worlds, k + 1, r, CasWrite(attempt, cur.value), before, uses,
                ItemOr(item, if attempt + 1 < CAS_ATTEMPTS then CasRead(attempt + 1) else Done(Failed(Changed))));
        if item != None { return Item(item.value); }
      }
      outcome := Failed(Changed);
    }
  }
}
