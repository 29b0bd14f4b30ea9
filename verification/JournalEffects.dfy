/** What creating, editing and deleting single documents answers and leaves. */
module JournalEffects {
  import opened Seqs
  import opened Journal
  import opened JournalLaws
  import opened JournalSharing

  /** First occurrences, in their order, without the empty id. */
  ghost predicate IsNormalized(ids: seq<Id>, r: seq<Id>) {
    && NoDup(r) && (forall id :: id in r <==> id in ids && id != NO_ID)
    && forall i, j :: 0 <= i < j < |r| ==> IndexOf(ids, r[i]) < IndexOf(ids, r[j])
  }

  lemma {:induction false} NormalizeInOrder(ids: seq<Id>)
    ensures IsNormalized(ids, Normalize(ids))
  {
    if ids != [] {
      assert ids == Init(ids) + [Last(ids)];
      NormalizeInOrder(Init(ids));
      var q, r := Normalize(Init(ids)), Normalize(ids);
      forall i, j | 0 <= i < j < |r| ensures IndexOf(ids, r[i]) < IndexOf(ids, r[j]) {
        assert r[i] == q[i] && q[i] in q;
        if j < |q| { assert r[j] == q[j] && q[j] in q; }
      }
    }
  }

  /** All documents but this one are as before. */
  predicate OnlyEntry(s: State, t: State, k: Kind, id: Id) {
    && id in Of(t, k) && Of(t, k).Keys == Of(s, k).Keys + {id} && Of(t, Other(k)) == Of(s, Other(k)) && t.pins == s.pins
    && forall e :: e in Of(s, k) && e != id ==> Of(t, k)[e] == Of(s, k)[e]
  }

  predicate OnlyPin(s: State, t: State, id: Id) {
    && id in t.pins && t.pins.Keys == s.pins.Keys + {id} && t.locations == s.locations && t.npcs == s.npcs
    && forall p :: p in s.pins && p != id ==> t.pins[p] == s.pins[p]
  }

  /** A document of one's own that nobody else can read and that is no clone. */
  ghost predicate IsOwnHidden<B>(d: Doc<B>, caller: Member) {
    && d.ownerPlayer == caller.playerId && d.ownerUser == caller.userId && d.clone == None && d.note == ""
    && forall player :: CanRead(d, player) <==> player == caller.playerId
  }

  /** An existing location that is not itself a sub-location. */
  predicate TopLevel(s: State, id: Id) {
    id in s.locations && s.locations[id].body.parent == NO_ID
  }

  /** A new entry needs a name, and a sub-location a top-level parent; it is stored as asked, hidden. */
  lemma EntryIsStored(s: State, members: seq<Member>, caller: Member, k: Kind, e: Entry)
    ensures var (t, reply) := Handle(s, members, caller, NewEntry(k, e));
      if e.name != "" && (k == Location && e.parent != NO_ID ==> TopLevel(s, e.parent)) then
        && reply == Created(s.next) && t.next == s.next + 1 && OnlyEntry(s, t, k, s.next)
        && var d := Of(t, k)[s.next];
        && IsOwnHidden(d, caller) && d.body.name == e.name && d.body.text == e.text
        && d.body.parent == (if k == Location then e.parent else NO_ID) && IsNormalized(e.links, d.body.links)
      else reply == BadRequest && t == s
  {
    NormalizeInOrder(e.links);
    hide Normalize, IsNormalized;
  }

  /** Missing documents are not found, and those of others are out of reach. */
  lemma OnlyOnesOwn(s: State, members: seq<Member>, caller: Member, r: Request)
    requires !r.NewEntry? && !r.NewPin?
    ensures var reply := Handle(s, members, caller, r).1;
      var ofPins := r.EditPin? || r.DeletePin? || r.SharePins?;
      if ofPins then
        && (reply == NotFound <==> r.id !in s.pins)
        && (reply == Forbidden <==> r.id in s.pins && s.pins[r.id].ownerPlayer != caller.playerId)
      else
        && (reply == NotFound <==> r.id !in Of(s, r.kind))
        && (reply == Forbidden <==> r.id in Of(s, r.kind) && Of(s, r.kind)[r.id].ownerPlayer != caller.playerId)
  {
    hide Recipients, ShareEntry, SharePin, PatchedEntry, PatchedPin, ParentAllowed, Remove, Put;
  }

  predicate Takes<T(==)>(p: Option<T>, before: T, after: T) {
    after == if p.Some? then p.value else before
  }

  /** An edit of an own entry names something, and for a location a top-level parent or none; it changes what
      it names and keeps owner and origin. */
  lemma EntryIsEdited(s: State, members: seq<Member>, caller: Member, k: Kind, id: Id, p: EntryPatch)
    requires id in Of(s, k) && Of(s, k)[id].ownerPlayer == caller.playerId
    ensures var (t, reply) := Handle(s, members, caller, EditEntry(k, id, p));
      var empty := p.name == None && p.text == None && p.parent == None && p.links == None && p.visibility == None && p.note == None;
      if !empty && (k == Location && p.parent.Some? && p.parent.value != NO_ID ==> TopLevel(s, p.parent.value)) then
        && reply == Changed && OnlyEntry(s, t, k, id) && t.next == s.next
        && var (d, e) := (Of(s, k)[id], Of(t, k)[id]);
        && e.ownerPlayer == d.ownerPlayer && e.ownerUser == d.ownerUser && e.clone == d.clone
        && Takes(p.visibility, d.visibility, e.visibility) && Takes(p.note, d.note, e.note)
        && Takes(p.name, d.body.name, e.body.name) && Takes(p.text, d.body.text, e.body.text)
        && Takes(if k == Location then p.parent else None, d.body.parent, e.body.parent)
        && (if p.links.Some? then IsNormalized(p.links.value, e.body.links) else e.body.links == d.body.links)
      else reply == BadRequest && t == s
  {
    if p.links.Some? { NormalizeInOrder(p.links.value); }
    hide Normalize, IsNormalized;
  }

  /** A pin on an entry needs one that the caller can read and no text of its own, any other pin a title and
      no entry; it is stored as asked, hidden. */
  lemma PinIsStored(s: State, members: seq<Member>, caller: Member, pin: Pin)
    ensures var (t, reply) := Handle(s, members, caller, NewPin(pin));
      var allowed := match pin.pinType
        case On(k) =>
          && pin.entity != NO_ID && pin.entity in Of(s, k) && pin.title == "" && pin.notes == ""
          && var d := Of(s, k)[pin.entity];
          (d.ownerPlayer == caller.playerId || d.visibility.all || caller.playerId in d.visibility.players)
        case _ => pin.entity == NO_ID && pin.title != "";
      if allowed then
        && reply == Created(s.next) && t.next == s.next + 1 && OnlyPin(s, t, s.next)
        && IsOwnHidden(t.pins[s.next], caller) && t.pins[s.next].body == pin
      else reply == BadRequest && t == s
  {
  }

  /** An edit of an own pin names something and changes what it names; what the pin is on stays. */
  lemma PinIsEdited(s: State, members: seq<Member>, caller: Member, id: Id, p: PinPatch)
    requires id in s.pins && s.pins[id].ownerPlayer == caller.playerId
    ensures var (t, reply) := Handle(s, members, caller, EditPin(id, p));
      if p.title == None && p.notes == None && p.x == None && p.y == None && p.visibility == None && p.note == None then
        reply == BadRequest && t == s
      else
        && reply == Changed && OnlyPin(s, t, id) && t.next == s.next
        && var (d, e) := (s.pins[id], t.pins[id]);
        && SamePin(d, e) && Takes(p.visibility, d.visibility, e.visibility) && Takes(p.note, d.note, e.note)
        && Takes(p.title, d.body.title, e.body.title) && Takes(p.notes, d.body.notes, e.body.notes)
        && Takes(p.x, d.body.x, e.body.x) && Takes(p.y, d.body.y, e.body.y)
  {
  }

  /** An own pin is deleted, and nothing else. */
  lemma PinIsDeleted(s: State, members: seq<Member>, caller: Member, id: Id)
    requires id in s.pins && s.pins[id].ownerPlayer == caller.playerId
    ensures var (t, reply) := Handle(s, members, caller, DeletePin(id));
      && reply == Changed && t.locations == s.locations && t.npcs == s.npcs && t.next == s.next
      && (forall p :: p in t.pins <==> p in s.pins && p != id) && forall p :: p in t.pins ==> t.pins[p] == s.pins[p]
  {
  }
}
