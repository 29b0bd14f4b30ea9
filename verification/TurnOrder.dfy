/** The turn order of an initiative call: internal/initiative/turnorder.go.
    Functions give the meaning, methods follow the source's loops and are proved equal to them,
    and TurnOrderLaws proves what the order promises. */
module TurnOrder {
  import opened Seqs

  datatype ParticipantType = PlayerType | EnemyType

  datatype Participant = Participant(
    id: string,
    kind: ParticipantType,
    name: string,
    initiative: Option<int>,      // None: not yet rolled
    playerId: string,             // "" for enemies
    isSkipped: bool,
    submittedBy: string)

  datatype Status = Open | Resolved

  /** The value of an initiative call, without the version that the store manages. */
  datatype Call = Call(
    id: string,
    status: Status,
    participants: seq<Participant>,
    order: seq<string>,
    current: string,              // "" when nobody is current
    started: bool)

  /** A decoded call, updated in place by the handlers. */
  class InitiativeCall {
    var id: string
    var status: Status
    var participants: seq<Participant>
    var order: seq<string>
    var current: string
    var started: bool
    var version: int

    constructor (c: Call, version: int)
      ensures View() == c && this.version == version
    {
      id, status, participants, order := c.id, c.status, c.participants, c.order;
      current, started := c.current, c.started;
      this.version := version;
    }

    function View(): Call
      reads this
    {
      Call(id, status, participants, order, current, started)
    }
  }

  // ---------------------------------------------------------------- sorting

  /** Order on strings by character, the shorter one first on a common prefix. */
  predicate NameLess(s: string, t: string) {
    if s == [] || t == [] then s == [] && t != []
    else if s[0] != t[0] then s[0] < t[0]
    else NameLess(s[1..], t[1..])
  }

  const UNROLLED := -999

  function SortKey(p: Participant): int {
    match p.initiative case Some(v) => v case None => UNROLLED
  }

  /** p acts before q: higher initiative first, ties by name. */
  predicate Less(p: Participant, q: Participant) {
    if SortKey(p) != SortKey(q) then SortKey(p) > SortKey(q) else NameLess(p.name, q.name)
  }

  predicate Sorted(s: seq<Participant>) {
    forall i, j :: 0 <= i < j < |s| ==> !Less(s[j], s[i])
  }

  /** The elements of `s` that tie with `x`, in order. */
  function Ties(s: seq<Participant>, x: Participant): seq<Participant> {
    if s == [] then []
    else Ties(Init(s), x) + (if Less(Last(s), x) || Less(x, Last(s)) then [] else [Last(s)])
  }

  /** Places `x` behind everything it does not beat. */
  function Insert(s: seq<Participant>, x: Participant): (r: seq<Participant>)
    ensures |r| == |s| + 1
  {
    if s == [] || !Less(x, Last(s)) then s + [x] else Insert(Init(s), x) + [Last(s)]
  }

  function StableSort(s: seq<Participant>): (r: seq<Participant>)
    ensures |r| == |s|
  {
    if s == [] then [] else Insert(StableSort(Init(s)), Last(s))
  }

  lemma {:induction false} InsertAt(s: seq<Participant>, x: Participant, j: nat)
    requires j <= |s|
    requires forall k :: j <= k < |s| ==> Less(x, s[k])
    requires j > 0 ==> !Less(x, s[j - 1])
    ensures Insert(s, x) == s[..j] + [x] + s[j..]
  {
    if j == |s| {
      assert s[..j] == s && s[j..] == [];
    } else {
      InsertAt(Init(s), x, j);
      assert Init(s)[..j] == s[..j] && Init(s)[j..] + [Last(s)] == s[j..];
    }
  }

  /** The inner loop of an insertion sort: sinks a[i] to its place in a[..i]. */
  method SinkInPlace(a: array<Participant>, i: nat)
    requires i < a.Length
    modifies a
    ensures a[..i + 1] == Insert(old(a[..i]), old(a[i]))
    ensures a[i + 1..] == old(a[i + 1..])
  {
    hide Less, Insert;
    ghost var s, x := a[..i], a[i];
    var j := i;
    while j > 0 && Less(a[j], a[j - 1])
      invariant 0 <= j <= i && a[j] == x
      invariant forall k {:trigger a[k]} :: 0 <= k < j ==> a[k] == s[k]
      invariant forall k {:trigger a[k]} :: j < k <= i ==> a[k] == s[k - 1]
      invariant forall k :: j <= k < i ==> Less(x, s[k])
      invariant forall k :: i < k < a.Length ==> a[k] == old(a[k])
    {
      a[j], a[j - 1] := a[j - 1], a[j];
      j := j - 1;
    }
    InsertAt(s, x, j);
    assert a[..i + 1] == s[..j] + [x] + s[j..];
  }

  /** Sorts a copy in place by stable insertion. */
  method SortParticipants(input: seq<Participant>) returns (out: seq<Participant>)
    ensures out == StableSort(input)
  {
    var a := new Participant[|input|](i requires 0 <= i < |input| => input[i]);
    for i := 0 to a.Length
      invariant a[..i] == StableSort(input[..i])
      invariant a[i..] == input[i..]
    {
      assert a[i] == a[i..][0] == input[i] && a[i + 1..] == a[i..][1..] == input[i + 1..];
      assert Init(input[..i + 1]) == input[..i];
      SinkInPlace(a, i);
    }
    assert input[..|input|] == input;
    out := a[..];
  }

  // ---------------------------------------------------------------- deriving the order

  predicate InCycle(p: Participant) {
    p.initiative.Some? && !p.isSkipped
  }

  /** Participants that rolled and are not skipped. */
  function Submitted(ps: seq<Participant>): seq<Participant> {
    if ps == [] then [] else Submitted(Init(ps)) + (if InCycle(Last(ps)) then [Last(ps)] else [])
  }

  function Ids(ps: seq<Participant>): (r: seq<string>)
    ensures |r| == |ps|
  {
    seq(|ps|, i requires 0 <= i < |ps| => ps[i].id)
  }

  /** Ids in plain initiative order. */
  function SortedIds(ps: seq<Participant>): seq<string> {
    Ids(StableSort(Submitted(ps)))
  }

  /** The frozen order without those who left, then those who joined. */
  function Merge(frozen: seq<string>, sorted: seq<string>): seq<string> {
    Keep(frozen, Elems(sorted)) + Without(sorted, Elems(frozen))
  }

  /** Rotation that brings the first `active` to the front, if it occurs. */
  function Rotate(ids: seq<string>, active: string): seq<string> {
    if active == "" || active !in ids then ids
    else ids[IndexOf(ids, active)..] + ids[..IndexOf(ids, active)]
  }

  function Order(c: Call): seq<string> {
    if c.status != Open then []
    else if !c.started then SortedIds(c.participants)
    else Rotate(Merge(c.order, SortedIds(c.participants)), c.current)
  }

  function Head(ids: seq<string>): string {
    if ids == [] then "" else ids[0]
  }

  function Sync(c: Call): Call {
    c.(order := Order(c), current := Head(Order(c)))
  }

  function Resorted(c: Call): Call {
    c.(order := [])
  }

  method RotateIDsToFront(ids: seq<string>, activeID: string) returns (r: seq<string>)
    ensures r == Rotate(ids, activeID)
  {
    if activeID == "" { return ids; }
    var idx := -1;
    for i := 0 to |ids|
      invariant idx == -1 && activeID !in ids[..i]
    {
      if ids[i] == activeID {
        idx := i;
        break;
      }
    }
    if idx <= 0 {
      assert idx == -1 ==> ids[..|ids|] == ids;
      assert idx == 0 ==> IndexOf(ids, activeID) == 0 && ids[0..] + ids[..0] == ids;
      return ids;
    }
    assert IndexOf(ids, activeID) == idx;
    r := ids[idx..] + ids[..idx];
  }

  method TurnOrderParticipantIDs(c: InitiativeCall?) returns (ids: seq<string>)
    ensures ids == if c == null then [] else Order(c.View())
    ensures c == null || c.status != Open ==> ids == []
  {
    if c == null || c.status != Open { return []; }
    var ps := c.participants;
    var submitted: seq<Participant> := [];
    for i := 0 to |ps|
      invariant submitted == Submitted(ps[..i])
    {
      assert Init(ps[..i + 1]) == ps[..i];
      if ps[i].initiative.Some? && !ps[i].isSkipped {
        submitted := submitted + [ps[i]];
      }
    }
    assert ps[..|ps|] == ps;
    var sorted := SortParticipants(submitted);
    var sortedIDs: seq<string> := [];
    for i := 0 to |sorted|
      invariant sortedIDs == Ids(sorted[..i])
    {
      sortedIDs := sortedIDs + [sorted[i].id];
    }
    assert sorted[..|sorted|] == sorted;
    if |sortedIDs| == 0 {
      MergeWithNobody(c.order, sortedIDs);
      return [];
    }
    if !c.started { return sortedIDs; }
    ids := MergeFrozen(c.order, sortedIDs);
    ids := RotateIDsToFront(ids, c.current);
  }

  lemma MergeWithNobody(frozen: seq<string>, sorted: seq<string>)
    requires sorted == []
    ensures Merge(frozen, sorted) == []
  {
    if Merge(frozen, sorted) != [] {
      assert Merge(frozen, sorted)[0] in Keep(frozen, Elems(sorted)) + Without(sorted, Elems(frozen));
    }
  }

  method IdSet(ids: seq<string>) returns (r: set<string>)
    ensures r == Elems(ids)
  {
    r := {};
    for i := 0 to |ids|
      invariant r == Elems(ids[..i])
    {
      r := r + {ids[i]};
    }
    assert ids[..|ids|] == ids;
  }

  /** The middle of TurnOrderParticipantIDs: what is left of the frozen order, then who is missing. */
  method MergeFrozen(frozen: seq<string>, sortedIDs: seq<string>) returns (merged: seq<string>)
    ensures merged == Merge(frozen, sortedIDs)
  {
    var inSorted := IdSet(sortedIDs);
    var persisted: seq<string> := [];
    for i := 0 to |frozen|
      invariant persisted == Keep(frozen[..i], inSorted)
    {
      assert Init(frozen[..i + 1]) == frozen[..i];
      if frozen[i] in inSorted {
        persisted := persisted + [frozen[i]];
      }
    }
    assert frozen[..|frozen|] == frozen;
    var inPersisted := IdSet(persisted);
    var missing: seq<string> := [];
    for i := 0 to |sortedIDs|
      invariant missing == Without(sortedIDs[..i], inPersisted)
    {
      assert Init(sortedIDs[..i + 1]) == sortedIDs[..i];
      if sortedIDs[i] !in inPersisted {
        missing := missing + [sortedIDs[i]];
      }
    }
    assert sortedIDs[..|sortedIDs|] == sortedIDs;
    WithoutCong(sortedIDs, inPersisted, Elems(frozen));
    merged := sortedIDs;
    if |persisted| > 0 {
      merged := persisted + missing;
    } else {
      WithoutNone(sortedIDs, inPersisted);
    }
  }

  method Resort(c: InitiativeCall?)
    modifies c
    ensures c != null ==> c.View() == Resorted(old(c.View())) && c.version == old(c.version)
  {
    if c == null { return; }
    c.order := [];
  }

  method SyncTurnState(c: InitiativeCall?) returns (r: InitiativeCall?)
    modifies c
    ensures r == c
    ensures c != null ==> c.View() == Sync(old(c.View())) && c.version == old(c.version)
  {
    if c == null { return null; }
    var order := TurnOrderParticipantIDs(c);
    c.order := order;
    if |order| > 0 {
      c.current := order[0];
    } else {
      c.current := "";
    }
    r := c;
  }
}
