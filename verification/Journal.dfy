/** Locations, NPCs and map pins of one campaign, and their sharing by per-recipient cloning:
    internal/handler/location.go, npc.go, map_pin.go and journal_share.go. Every handler is one step. */
module Journal {
  import opened Seqs

  /** Generated ids, in the order they were generated; NO_ID is the empty string. */
  type Id = nat

  const NO_ID := 0

  datatype Visibility = Visibility(all: bool, players: seq<string>)

  datatype CloneAudit = CloneAudit(from: Id, fromOwner: string)

  const HIDDEN := Visibility(false, [])

  datatype Doc<+B> = Doc(ownerPlayer: string, ownerUser: string, visibility: Visibility, note: string,
                         clone: Option<CloneAudit>, body: B)

  /** A location or an NPC: `links` are linkedNpcIds or linkedLocationIds; only locations have parents. */
  datatype Entry = Entry(name: string, text: string, parent: Id, links: seq<Id>)

  datatype Kind = Location | Npc

  function Other(k: Kind): Kind {
    match k case Location => Npc case Npc => Location
  }

  datatype PinType = On(kind: Kind) | Item | MajorFinding | TravelMarker | Custom

  datatype Pin = Pin(pinType: PinType, entity: Id, title: string, notes: string, x: real, y: real)

  type Entries = map<Id, Doc<Entry>>

  type Pins = map<Id, Doc<Pin>>

  datatype State = State(locations: Entries, npcs: Entries, pins: Pins, next: Id)

  function Of(s: State, k: Kind): Entries {
    match k case Location => s.locations case Npc => s.npcs
  }

  datatype Member = Member(playerId: string, userId: string)

  // ---------------------------------------------------------------- storing

  function Create(s: State, k: Kind, d: Doc<Entry>): State {
    match k
    case Location => s.(locations := s.locations[s.next := d], next := s.next + 1)
    case Npc => s.(npcs := s.npcs[s.next := d], next := s.next + 1)
  }

  function CreatePin(s: State, d: Doc<Pin>): State {
    s.(pins := s.pins[s.next := d], next := s.next + 1)
  }

  predicate IsClone<B>(d: Doc<B>, source: Id, owner: string) {
    d.clone.Some? && d.clone.value.from == source && d.ownerPlayer == owner
  }

  /** FindCloneOf: a clone of `source` owned by `owner`, if there is one. */
  ghost function FindClone<B>(m: map<Id, Doc<B>>, source: Id, owner: string): (r: Option<Id>)
    ensures r.Some? ==> r.value in m && IsClone(m[r.value], source, owner)
    ensures r == None ==> forall id :: id in m ==> !IsClone(m[id], source, owner)
  {
    if exists id :: id in m && IsClone(m[id], source, owner)
    then var id :| id in m && IsClone(m[id], source, owner); Some(id)
    else None
  }

  /** A copy for the recipient that nobody else sees. */
  function Cloned<B>(d: Doc<B>, source: Id, to: Member, note: string, body: B): Doc<B> {
    Doc(to.playerId, to.userId, HIDDEN, note, Some(CloneAudit(source, d.ownerPlayer)), body)
  }

  // ---------------------------------------------------------------- cloning

  /** cloneNpcForRecipient and cloneLocationForRecipientShallow: the recipient's clone, made if there is
      none yet; NO_ID when the source is gone. A location cloned this way loses its links. */
  ghost function CloneLinked(s: State, k: Kind, source: Id, to: Member): (State, Id) {
    var found := FindClone(Of(s, k), source, to.playerId);
    if found.Some? then (s, found.value)
    else if source !in Of(s, k) then (s, NO_ID)
    else
      var d := Of(s, k)[source];
      (Create(s, k, Cloned(d, source, to, "", if k == Location then d.body.(links := []) else d.body)), s.next)
  }

  /** cascadeLinkedNpcs and cascadeLinkedLocations: clones the links that are on the cascade list. */
  ghost function Cascade(s: State, k: Kind, links: seq<Id>, to: Member, wanted: set<Id>): (State, map<Id, Id>) {
    if links == [] then (s, map[])
    else
      var (t, ids) := Cascade(s, k, Init(links), to, wanted);
      if Last(links) !in wanted then (t, ids)
      else
        var (u, id) := CloneLinked(t, k, Last(links), to);
        (u, if id == NO_ID then ids else ids[Last(links) := id])
  }

  function Rewrite(links: seq<Id>, ids: map<Id, Id>): seq<Id> {
    if links == [] then []
    else Rewrite(Init(links), ids) + [if Last(links) in ids then ids[Last(links)] else Last(links)]
  }

  /** The pin is one the cascade copies: it points at the source and the recipient has no copy yet. */
  ghost predicate Copied(pins: Pins, pin: Id, k: Kind, source: Id, to: Member) {
    && pin in pins && pins[pin].body.entity == source && pins[pin].body.pinType == On(k)
    && FindClone(pins, pin, to.playerId) == None
  }

  /** cascadePinsForRecipient: the copies point at the cloned entry. */
  ghost function CascadePins(s: State, k: Kind, source: Id, clone: Id, to: Member, pinIds: seq<Id>): State {
    if pinIds == [] then s
    else
      var t, pin := CascadePins(s, k, source, clone, to, Init(pinIds)), Last(pinIds);
      if !Copied(t.pins, pin, k, source, to) then t
      else CreatePin(t, Cloned(t.pins[pin], pin, to, t.pins[pin].note, t.pins[pin].body.(entity := clone)))
  }

  datatype ShareRequest = ShareRequest(note: string, linkIds: seq<Id>, pinIds: seq<Id>)

  /** cloneLocationForRecipient and cloneNpcForRecipientHandler. */
  ghost function CloneEntry(s: State, k: Kind, source: Id, d: Doc<Entry>, to: Member, req: ShareRequest): (State, Id) {
    var found := FindClone(Of(s, k), source, to.playerId);
    if found.Some? then (s, found.value)
    else
      var (t, ids) := Cascade(s, Other(k), d.body.links, to, Elems(req.linkIds));
      var u := Create(t, k, Cloned(d, source, to, req.note, d.body.(links := Rewrite(d.body.links, ids))));
      (CascadePins(u, k, source, t.next, to, req.pinIds), t.next)
  }

  ghost function ShareEntry(s: State, k: Kind, source: Id, d: Doc<Entry>, to: seq<Member>, req: ShareRequest): (State, seq<Id>) {
    if to == [] then (s, [])
    else
      var (t, ids) := ShareEntry(s, k, source, d, Init(to), req);
      var (u, id) := CloneEntry(t, k, source, d, Last(to), req);
      (u, ids + [id])
  }

  /** cloneMapPinForRecipient: optionally clones what the pin points at first. */
  ghost function ClonePin(s: State, source: Id, d: Doc<Pin>, to: Member, note: string, cascade: bool): (State, Id) {
    var found := FindClone(s.pins, source, to.playerId);
    if found.Some? then (s, found.value)
    else if cascade && d.body.entity != NO_ID && d.body.pinType.On? then
      var (t, entity) := CloneLinked(s, d.body.pinType.kind, d.body.entity, to);
      var body := if entity != NO_ID then d.body.(entity := entity) else d.body;
      (CreatePin(t, Cloned(d, source, to, note, body)), t.next)
    else (CreatePin(s, Cloned(d, source, to, note, d.body)), s.next)
  }

  ghost function SharePin(s: State, source: Id, d: Doc<Pin>, to: seq<Member>, note: string, cascade: bool): (State, seq<Id>) {
    if to == [] then (s, [])
    else
      var (t, ids) := SharePin(s, source, d, Init(to), note, cascade);
      var (u, id) := ClonePin(t, source, d, Last(to), note, cascade);
      (u, ids + [id])
  }

  // ---------------------------------------------------------------- requests

  datatype EntryPatch = EntryPatch(name: Option<string>, text: Option<string>, parent: Option<Id>, links: Option<seq<Id>>,
                                   visibility: Option<Visibility>, note: Option<string>)

  datatype PinPatch = PinPatch(title: Option<string>, notes: Option<string>, x: Option<real>, y: Option<real>,
                               visibility: Option<Visibility>, note: Option<string>)

  datatype Request =
    | NewEntry(kind: Kind, entry: Entry)
    | EditEntry(kind: Kind, id: Id, entryPatch: EntryPatch)
    | DeleteEntry(kind: Kind, id: Id)
    | NewPin(pin: Pin)
    | EditPin(id: Id, pinPatch: PinPatch)
    | DeletePin(id: Id)
    | ShareEntries(kind: Kind, id: Id, to: seq<string>, all: bool, share: ShareRequest)
    | SharePins(id: Id, to: seq<string>, all: bool, note: string, cascade: bool)

  datatype Reply = Created(id: Id) | Changed | Shared(clones: seq<Id>) | BadRequest | NotFound | Forbidden

  /** normalizeStringSlice: drops empties and repetitions. */
  function Normalize(ids: seq<Id>): (r: seq<Id>)
    ensures NoDup(r) && NO_ID !in r
    ensures forall id :: id in r <==> id in ids && id != NO_ID
  {
    if ids == [] then []
    else
      assert ids == Init(ids) + [Last(ids)];
      var r := Normalize(Init(ids));
      NoDupSnoc(r, Last(ids));
      if Last(ids) == NO_ID || Last(ids) in r then r else r + [Last(ids)]
  }

  predicate CanRead<B>(d: Doc<B>, player: string) {
    d.ownerPlayer == player || d.visibility.all || player in d.visibility.players
  }

  /** checkSubLocationDepth: looks at the proposed parent only. */
  predicate ParentAllowed(s: State, parent: Id) {
    parent in s.locations && s.locations[parent].body.parent == NO_ID
  }

  predicate PinAllowed(s: State, pin: Pin, player: string) {
    match pin.pinType
    case On(k) =>
      && pin.entity != NO_ID && pin.title == "" && pin.notes == ""
      && pin.entity in Of(s, k) && CanRead(Of(s, k)[pin.entity], player)
    case _ => pin.entity == NO_ID && pin.title != ""
  }

  function PatchedEntry(k: Kind, d: Doc<Entry>, p: EntryPatch): Doc<Entry> {
    d.(visibility := p.visibility.GetOr(d.visibility), note := p.note.GetOr(d.note),
       body := Entry(p.name.GetOr(d.body.name), p.text.GetOr(d.body.text),
                     if k == Location then p.parent.GetOr(d.body.parent) else d.body.parent,
                     match p.links case Some(l) => Normalize(l) case None => d.body.links))
  }

  function PatchedPin(d: Doc<Pin>, p: PinPatch): Doc<Pin> {
    d.(visibility := p.visibility.GetOr(d.visibility), note := p.note.GetOr(d.note),
       body := d.body.(title := p.title.GetOr(d.body.title), notes := p.notes.GetOr(d.body.notes),
                       x := p.x.GetOr(d.body.x), y := p.y.GetOr(d.body.y)))
  }

  function Put(s: State, k: Kind, id: Id, d: Doc<Entry>): State {
    match k
    case Location => s.(locations := s.locations[id := d])
    case Npc => s.(npcs := s.npcs[id := d])
  }

  /** The entry and every pin pointing at it. */
  function Remove(s: State, k: Kind, id: Id): State {
    var pins := map p | p in s.pins && s.pins[p].body.entity != id :: s.pins[p];
    match k
    case Location => s.(locations := s.locations - {id}, pins := pins)
    case Npc => s.(npcs := s.npcs - {id}, pins := pins)
  }

  /** resolveShareRecipients: the owner is left out; an unknown recipient is an error. For repeated
      player ids the last member wins. */
  function Recipients(members: seq<Member>, owner: string, to: seq<string>, all: bool): Result<seq<Member>, string> {
    if all then Ok(Others(members, owner)) else Chosen(members, owner, to)
  }

  function Others(members: seq<Member>, owner: string): seq<Member> {
    if members == [] then []
    else Others(Init(members), owner) + (if Last(members).playerId == owner then [] else [Last(members)])
  }

  function MemberOf(members: seq<Member>, player: string): Option<Member> {
    if members == [] then None
    else if Last(members).playerId == player then Some(Last(members))
    else MemberOf(Init(members), player)
  }

  function Chosen(members: seq<Member>, owner: string, to: seq<string>): Result<seq<Member>, string> {
    if to == [] then Ok([])
    else
      match Chosen(members, owner, Init(to))
      case Err(e) => Err(e)
      case Ok(rest) =>
        if Last(to) == owner then Ok(rest)
        else match MemberOf(members, Last(to))
          case None => Err(Last(to))
          case Some(m) => Ok(rest + [m])
  }

  /** Why a request on an existing document is refused, if it is. Only owners edit, delete and share. */
  function Refusal<B>(m: map<Id, Doc<B>>, id: Id, caller: Member): Option<Reply> {
    if id !in m then Some(NotFound) else if m[id].ownerPlayer != caller.playerId then Some(Forbidden) else None
  }

  const EMPTY_PATCH := EntryPatch(None, None, None, None, None, None)

  const EMPTY_PIN_PATCH := PinPatch(None, None, None, None, None, None)

  /** One request by a member of the campaign, whose members are `members` at that moment. */
  ghost function Handle(s: State, members: seq<Member>, caller: Member, r: Request): (State, Reply) {
    match r
    case NewEntry(k, e) =>
      if e.name == "" || (k == Location && e.parent != NO_ID && !ParentAllowed(s, e.parent)) then (s, BadRequest)
      else
        var body := Entry(e.name, e.text, if k == Location then e.parent else NO_ID, Normalize(e.links));
        (Create(s, k, Doc(caller.playerId, caller.userId, HIDDEN, "", None, body)), Created(s.next))
    case EditEntry(k, id, p) =>
      var refusal := Refusal(Of(s, k), id, caller);
      if refusal.Some? then (s, refusal.value)
      else if p == EMPTY_PATCH then (s, BadRequest)
      else if k == Location && p.parent.Some? && p.parent.value != NO_ID && !ParentAllowed(s, p.parent.value) then (s, BadRequest)
      else (Put(s, k, id, PatchedEntry(k, Of(s, k)[id], p)), Changed)
    case DeleteEntry(k, id) =>
      var refusal := Refusal(Of(s, k), id, caller);
      if refusal.Some? then (s, refusal.value) else (Remove(s, k, id), Changed)
    case NewPin(pin) =>
      if !PinAllowed(s, pin, caller.playerId) then (s, BadRequest)
      else (CreatePin(s, Doc(caller.playerId, caller.userId, HIDDEN, "", None, pin)), Created(s.next))
    case EditPin(id, p) =>
      var refusal := Refusal(s.pins, id, caller);
      if refusal.Some? then (s, refusal.value)
      else if p == EMPTY_PIN_PATCH then (s, BadRequest)
      else (s.(pins := s.pins[id := PatchedPin(s.pins[id], p)]), Changed)
    case DeletePin(id) =>
      var refusal := Refusal(s.pins, id, caller);
      if refusal.Some? then (s, refusal.value) else (s.(pins := s.pins - {id}), Changed)
    case ShareEntries(k, id, to, all, share) =>
      var refusal := Refusal(Of(s, k), id, caller);
      if refusal.Some? then (s, refusal.value)
      else
        var d := Of(s, k)[id];
        var recipients := Recipients(members, d.ownerPlayer, to, all);
        if recipients.Err? then (s, BadRequest)
        else
          var (t, ids) := ShareEntry(s, k, id, d, recipients.value, share);
          (t, Shared(ids))
    case SharePins(id, to, all, note, cascade) =>
      var refusal := Refusal(s.pins, id, caller);
      if refusal.Some? then (s, refusal.value)
      else
        var d := s.pins[id];
        var recipients := Recipients(members, d.ownerPlayer, to, all);
        if recipients.Err? then (s, BadRequest)
        else
          var (t, ids) := SharePin(s, id, d, recipients.value, note, cascade);
          (t, Shared(ids))
  }
}
