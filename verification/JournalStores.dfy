/** The code of the journal handlers on the three collections. */
module JournalStores {
  import opened Seqs
  import opened Journal
  import opened JournalLaws
  import opened JournalSharing
  import opened JournalCopies

  method FindCloneOf<B(!new)>(m: map<Id, Doc<B>>, source: Id, owner: string) returns (r: Option<Id>)
    requires OneClone(m)
    ensures r == FindClone(m, source, owner)
  {
    r := None;
    if id :| id in m && IsClone(m[id], source, owner) {
      FoundIs(m, id, source, owner);
      r := Some(id);
    }
  }

  /** rewriteIds */
  method RewriteIds(src: seq<Id>, ids: map<Id, Id>) returns (out: seq<Id>)
    ensures out == Rewrite(src, ids)
  {
    out := [];
    for i := 0 to |src|
      invariant out == Rewrite(src[..i], ids)
    {
      assert Init(src[..i + 1]) == src[..i];
      if src[i] in ids { out := out + [ids[src[i]]]; } else { out := out + [src[i]]; }
    }
    assert src[..|src|] == src;
  }

  method NormalizeStringSlice(ids: seq<Id>) returns (out: seq<Id>)
    ensures out == Normalize(ids)
  {
    out := [];
    var seen: set<Id> := {};
    for i := 0 to |ids|
      invariant out == Normalize(ids[..i]) && seen == Elems(out)
    {
      assert Init(ids[..i + 1]) == ids[..i];
      if ids[i] == NO_ID || ids[i] in seen { continue; }
      seen := seen + {ids[i]};
      out := out + [ids[i]];
    }
    assert ids[..|ids|] == ids;
  }

  /** visibilityAllowsRead */
  method VisibilityAllowsRead<B>(d: Doc<B>, caller: string) returns (ok: bool)
    ensures ok == CanRead(d, caller)
  {
    if d.ownerPlayer == caller { return true; }
    if d.visibility.all { return true; }
    for i := 0 to |d.visibility.players|
      invariant caller !in d.visibility.players[..i]
    {
      if d.visibility.players[i] == caller { return true; }
    }
    ok := false;
  }

  /** resolveShareRecipients: a map from player ids to members, later members overwriting earlier ones. */
  method ResolveShareRecipients(members: seq<Member>, owner: string, to: seq<string>, all: bool)
    returns (r: Result<seq<Member>, string>)
    ensures r == Recipients(members, owner, to, all)
    ensures r.Err? <==> !all && NamesAStranger(members, owner, to)
    ensures r.Ok? ==> Reached(members, owner, to, all, r.value)
  {
    RecipientsAre(members, owner, to, all);
    hide NamesAStranger, AreRecipients;
    var out: seq<Member> := [];
    if all {
      for i := 0 to |members|
        invariant out == Others(members[..i], owner)
      {
        assert Init(members[..i + 1]) == members[..i];
        if members[i].playerId == owner { continue; }
        out := out + [members[i]];
      }
      assert members[..|members|] == members;
      return Ok(out);
    }
    var byPlayerId: map<string, Member> := map[];
    for i := 0 to |members|
      invariant forall p :: MemberOf(members[..i], p) == if p in byPlayerId then Some(byPlayerId[p]) else None
    {
      assert Init(members[..i + 1]) == members[..i];
      byPlayerId := byPlayerId[members[i].playerId := members[i]];
    }
    assert members[..|members|] == members;
    for i := 0 to |to|
      invariant Chosen(members, owner, to[..i]) == Ok(out)
    {
      assert Init(to[..i + 1]) == to[..i];
      if to[i] == owner { continue; }
      if to[i] !in byPlayerId {
        ErrorStays(members, owner, to, i + 1);
        return Err(to[i]);
      }
      out := out + [byPlayerId[to[i]]];
    }
    assert to[..|to|] == to;
    r := Ok(out);
  }

  /** The first unknown recipient decides. */
  lemma {:induction false} ErrorStays(members: seq<Member>, owner: string, to: seq<string>, n: nat)
    requires n <= |to| && Chosen(members, owner, to[..n]).Err?
    ensures Chosen(members, owner, to) == Chosen(members, owner, to[..n])
  {
    if n == |to| {
      assert to[..n] == to;
    } else {
      assert Init(to)[..n] == to[..n];
      ErrorStays(members, owner, Init(to), n);
    }
  }

  class Stores {
    var locations: Entries
    var npcs: Entries
    var pins: Pins
    var next: Id

    constructor ()
      ensures View() == NOTHING
    {
      locations, npcs, pins, next := map[], map[], map[], 1;
    }

    function View(): State
      reads this
    {
      State(locations, npcs, pins, next)
    }

    ghost predicate Valid()
      reads this
    {
      Inv(View())
    }

    method Insert(k: Kind, d: Doc<Entry>) returns (id: Id)
      modifies this
      ensures View() == Create(old(View()), k, d) && id == old(next)
    {
      id := next;
      if k == Location { locations := locations[id := d]; } else { npcs := npcs[id := d]; }
      next := next + 1;
    }

    method InsertPin(d: Doc<Pin>) returns (id: Id)
      modifies this
      ensures View() == CreatePin(old(View()), d) && id == old(next)
    {
      id := next;
      pins := pins[id := d];
      next := next + 1;
    }

    /** cloneNpcForRecipient and cloneLocationForRecipientShallow */
    method CloneLinkedFor(k: Kind, source: Id, to: Member) returns (id: Id)
      requires Valid()
      modifies this
      ensures (View(), id) == CloneLinked(old(View()), k, source, to)
    {
      var entries := if k == Location then locations else npcs;
      var existing := FindCloneOf(entries, source, to.playerId);
      if existing.Some? { return existing.value; }
      if source !in entries { return NO_ID; }
      var d := entries[source];
      var body := if k == Location then d.body.(links := []) else d.body;
      id := Insert(k, Cloned(d, source, to, "", body));
    }

    /** cascadeLinkedNpcs and cascadeLinkedLocations */
    method CascadeLinked(k: Kind, links: seq<Id>, to: Member, cascadeIds: seq<Id>) returns (out: map<Id, Id>)
      requires Valid()
      modifies this
      ensures (View(), out) == Cascade(old(View()), k, links, to, Elems(cascadeIds))
    {
      hide CloneLinked, Inv;
      var wanted := Elems(cascadeIds);
      out := map[];
      for i := 0 to |links|
        invariant Valid() && (View(), out) == Cascade(old(View()), k, links[..i], to, wanted)
      {
        assert Init(links[..i + 1]) == links[..i];
        if links[i] !in wanted { continue; }
        CloneLinkedOk(View(), k, links[i], to);
        var id := CloneLinkedFor(k, links[i], to);
        if id != NO_ID { out := out[links[i] := id]; }
      }
      assert links[..|links|] == links;
    }

    /** cascadePinsForRecipient and cascadePinsForNpcRecipient */
    method CascadePinsFor(k: Kind, source: Id, clone: Id, to: Member, cascadeIds: seq<Id>)
      requires Valid() && clone in Of(View(), k) && clone != source
      modifies this
      ensures View() == CascadePins(old(View()), k, source, clone, to, cascadeIds)
    {
      hide Inv;
      for i := 0 to |cascadeIds|
        invariant Valid() && View() == CascadePins(old(View()), k, source, clone, to, cascadeIds[..i])
      {
        assert Init(cascadeIds[..i + 1]) == cascadeIds[..i];
        CascadePinsOk(old(View()), k, source, clone, to, cascadeIds[..i + 1]);
        var pinId := cascadeIds[i];
        if pinId !in pins { continue; }
        var pin := pins[pinId];
        if pin.body.entity != source || pin.body.pinType != On(k) { continue; }
        PinsUnique(View());
        var existing := FindCloneOf(pins, pinId, to.playerId);
        if existing.Some? { continue; }
        var _ := InsertPin(Cloned(pin, pinId, to, pin.note, pin.body.(entity := clone)));
      }
      assert cascadeIds[..|cascadeIds|] == cascadeIds;
    }

    /** cloneLocationForRecipient and cloneNpcForRecipientHandler */
    method CloneEntryFor(k: Kind, source: Id, d: Doc<Entry>, to: Member, req: ShareRequest) returns (id: Id)
      requires Valid() && source in Of(View(), k)
      modifies this
      ensures (View(), id) == CloneEntry(old(View()), k, source, d, to, req)
    {
      ghost var s := View();
      var existing := FindCloneOf(if k == Location then locations else npcs, source, to.playerId);
      if existing.Some? { return existing.value; }
      CascadeOk(s, Other(k), d.body.links, to, Elems(req.linkIds));
      var ids := CascadeLinked(Other(k), d.body.links, to, req.linkIds);
      var links := RewriteIds(d.body.links, ids);
      var c := Cloned(d, source, to, req.note, d.body.(links := links));
      InsertKeepsValid(s, View(), k, source, c, to);
      hide Inv, FindClone, Cascade;
      id := Insert(k, c);
      CascadePinsFor(k, source, id, to, req.pinIds);
    }

    /** The loops of the two Share handlers. */
    method ShareEntryWith(k: Kind, source: Id, d: Doc<Entry>, to: seq<Member>, req: ShareRequest) returns (clones: seq<Id>)
      requires Valid() && source in Of(View(), k) && Of(View(), k)[source] == d
      modifies this
      ensures (View(), clones) == ShareEntry(old(View()), k, source, d, to, req)
    {
      hide CloneEntry, Inv, FindClone;
      clones := [];
      for i := 0 to |to|
        invariant Valid() && source in Of(View(), k) && Of(View(), k)[source] == d
        invariant (View(), clones) == ShareEntry(old(View()), k, source, d, to[..i], req)
      {
        assert Init(to[..i + 1]) == to[..i];
        ShareEntryOk(old(View()), k, source, d, to[..i + 1], req);
        var id := CloneEntryFor(k, source, d, to[i], req);
        clones := clones + [id];
      }
      assert to[..|to|] == to;
    }

    /** cloneMapPinForRecipient */
    method ClonePinFor(source: Id, d: Doc<Pin>, to: Member, note: string, cascade: bool) returns (id: Id)
      requires Valid()
      modifies this
      ensures (View(), id) == ClonePin(old(View()), source, d, to, note, cascade)
    {
      var existing := FindCloneOf(pins, source, to.playerId);
      if existing.Some? { return existing.value; }
      var clone := Cloned(d, source, to, note, d.body);
      if cascade && d.body.entity != NO_ID {
        match d.body.pinType
        case On(k) =>
          var entity := CloneLinkedFor(k, d.body.entity, to);
          if entity != NO_ID { clone := clone.(body := clone.body.(entity := entity)); }
        case _ =>
      }
      hide Inv, FindClone, CloneLinked;
      id := InsertPin(clone);
    }

    method SharePinWith(source: Id, d: Doc<Pin>, to: seq<Member>, note: string, cascade: bool) returns (clones: seq<Id>)
      requires Valid() && source in pins && pins[source] == d
      modifies this
      ensures (View(), clones) == SharePin(old(View()), source, d, to, note, cascade)
    {
      hide ClonePin, Inv, FindClone;
      clones := [];
      for i := 0 to |to|
        invariant Valid() && source in pins && pins[source] == d
        invariant (View(), clones) == SharePin(old(View()), source, d, to[..i], note, cascade)
      {
        assert Init(to[..i + 1]) == to[..i];
        SharePinOk(old(View()), source, d, to[..i + 1], note, cascade);
        var id := ClonePinFor(source, d, to[i], note, cascade);
        clones := clones + [id];
      }
      assert to[..|to|] == to;
    }

    /** LocationHandler.Share and NPCHandler.Share */
    method ShareEntriesHandler(members: seq<Member>, caller: Member, r: Request) returns (reply: Reply)
      requires Valid() && r.ShareEntries?
      modifies this
      ensures (View(), reply) == Handle(old(View()), members, caller, r)
    {
      hide ShareEntry, Inv, FindClone, Recipients;
      var entries := if r.kind == Location then locations else npcs;
      if r.id !in entries { return NotFound; }
      var source := entries[r.id];
      if source.ownerPlayer != caller.playerId { return Forbidden; }
      var recipients := ResolveShareRecipients(members, source.ownerPlayer, r.to, r.all);
      if recipients.Err? { return BadRequest; }
      var clones := ShareEntryWith(r.kind, r.id, source, recipients.value, r.share);
      reply := Shared(clones);
    }

    /** MapPinHandler.Share */
    method SharePinsHandler(members: seq<Member>, caller: Member, r: Request) returns (reply: Reply)
      requires Valid() && r.SharePins?
      modifies this
      ensures (View(), reply) == Handle(old(View()), members, caller, r)
    {
      hide SharePin, Inv, FindClone, Recipients;
      if r.id !in pins { return NotFound; }
      var source := pins[r.id];
      if source.ownerPlayer != caller.playerId { return Forbidden; }
      var recipients := ResolveShareRecipients(members, source.ownerPlayer, r.to, r.all);
      if recipients.Err? { return BadRequest; }
      var clones := SharePinWith(r.id, source, recipients.value, r.note, r.cascade);
      reply := Shared(clones);
    }

    /** The Delete handlers of locations and NPCs: the entry, then every pin with its id. */
    method DeleteEntryHandler(members: seq<Member>, caller: Member, r: Request) returns (reply: Reply)
      requires r.DeleteEntry?
      modifies this
      ensures (View(), reply) == Handle(old(View()), members, caller, r)
    {
      var entries := if r.kind == Location then locations else npcs;
      if r.id !in entries { return NotFound; }
      if entries[r.id].ownerPlayer != caller.playerId { return Forbidden; }
      if r.kind == Location { locations := locations - {r.id}; } else { npcs := npcs - {r.id}; }
      pins := map p | p in pins && pins[p].body.entity != r.id :: pins[p];
      reply := Changed;
    }

    /** MapPinHandler.Create: the rules per type of pin, then the insert. */
    method NewPinHandler(members: seq<Member>, caller: Member, r: Request) returns (reply: Reply)
      requires r.NewPin?
      modifies this
      ensures (View(), reply) == Handle(old(View()), members, caller, r)
    {
      var pin := r.pin;
      match pin.pinType {
      case On(k) =>
        if pin.entity == NO_ID { return BadRequest; }
        if pin.title != "" || pin.notes != "" { return BadRequest; }
        var entries := if k == Location then locations else npcs;
        if pin.entity !in entries { return BadRequest; }
        var visible := VisibilityAllowsRead(entries[pin.entity], caller.playerId);
        if !visible { return BadRequest; }
      case _ =>
        if pin.entity != NO_ID { return BadRequest; }
        if pin.title == "" { return BadRequest; }
      }
      var id := InsertPin(Doc(caller.playerId, caller.userId, HIDDEN, "", None, pin));
      reply := Created(id);
    }

    method NewEntryHandler(members: seq<Member>, caller: Member, r: Request) returns (reply: Reply)
      requires r.NewEntry?
      modifies this
      ensures (View(), reply) == Handle(old(View()), members, caller, r)
    {
      var e := r.entry;
      if e.name == "" { return BadRequest; }
      if r.kind == Location && e.parent != NO_ID && !ParentAllowed(View(), e.parent) { return BadRequest; }
      var links := NormalizeStringSlice(e.links);
      var body := Entry(e.name, e.text, if r.kind == Location then e.parent else NO_ID, links);
      var id := Insert(r.kind, Doc(caller.playerId, caller.userId, HIDDEN, "", None, body));
      reply := Created(id);
    }

    method EditEntryHandler(members: seq<Member>, caller: Member, r: Request) returns (reply: Reply)
      requires r.EditEntry?
      modifies this
      ensures (View(), reply) == Handle(old(View()), members, caller, r)
    {
      var entries, p := if r.kind == Location then locations else npcs, r.entryPatch;
      if r.id !in entries { return NotFound; }
      var d := entries[r.id];
      if d.ownerPlayer != caller.playerId { return Forbidden; }
      if p == EMPTY_PATCH { return BadRequest; }
      if r.kind == Location && p.parent.Some? && p.parent.value != NO_ID && !ParentAllowed(View(), p.parent.value) {
        return BadRequest;
      }
      var links := d.body.links;
      if p.links.Some? { links := NormalizeStringSlice(p.links.value); }
      var parent := if r.kind == Location then p.parent.GetOr(d.body.parent) else d.body.parent;
      d := d.(visibility := p.visibility.GetOr(d.visibility), note := p.note.GetOr(d.note),
              body := Entry(p.name.GetOr(d.body.name), p.text.GetOr(d.body.text), parent, links));
      if r.kind == Location { locations := locations[r.id := d]; } else { npcs := npcs[r.id := d]; }
      reply := Changed;
    }

    method EditPinHandler(members: seq<Member>, caller: Member, r: Request) returns (reply: Reply)
      requires r.EditPin?
      modifies this
      ensures (View(), reply) == Handle(old(View()), members, caller, r)
    {
      if r.id !in pins { return NotFound; }
      if pins[r.id].ownerPlayer != caller.playerId { return Forbidden; }
      if r.pinPatch == EMPTY_PIN_PATCH { return BadRequest; }
      pins := pins[r.id := PatchedPin(pins[r.id], r.pinPatch)];
      reply := Changed;
    }

    method DeletePinHandler(members: seq<Member>, caller: Member, r: Request) returns (reply: Reply)
      requires r.DeletePin?
      modifies this
      ensures (View(), reply) == Handle(old(View()), members, caller, r)
    {
      if r.id !in pins { return NotFound; }
      if pins[r.id].ownerPlayer != caller.playerId { return Forbidden; }
      pins := pins - {r.id};
      reply := Changed;
    }

    /** Any request of a member; what HandleKeepsInv proves of the specification holds of the stores. */
    method Serve(members: seq<Member>, caller: Member, r: Request) returns (reply: Reply)
      requires Valid()
      modifies this
      ensures (View(), reply) == Handle(old(View()), members, caller, r) && Valid()
    {
      hide Handle, Inv;
      HandleKeepsInv(View(), members, caller, r);
      match r
      case NewEntry(_, _) => reply := NewEntryHandler(members, caller, r);
      case EditEntry(_, _, _) => reply := EditEntryHandler(members, caller, r);
      case DeleteEntry(_, _) => reply := DeleteEntryHandler(members, caller, r);
      case NewPin(_) => reply := NewPinHandler(members, caller, r);
      case EditPin(_, _) => reply := EditPinHandler(members, caller, r);
      case DeletePin(_) => reply := DeletePinHandler(members, caller, r);
      case ShareEntries(_, _, _, _, _) => reply := ShareEntriesHandler(members, caller, r);
      case SharePins(_, _, _, _, _) => reply := SharePinsHandler(members, caller, r);
    }
  }

  lemma InsertKeepsValid(s: State, t: State, k: Kind, source: Id, c: Doc<Entry>, to: Member)
    requires Inv(t) && Extends(s, t) && Of(t, k) == Of(s, k) && source in Of(s, k)
    requires IsClone(c, source, to.playerId) && FindClone(Of(s, k), source, to.playerId) == None
    ensures Inv(Create(t, k, c)) && t.next in Of(Create(t, k, c), k) && t.next != source
  {
    InsertClone(Of(t, k), t.next, c, source, to.playerId);
    CreateKeepsInv(t, k, c);
  }

  lemma PinsUnique(s: State)
    requires Inv(s)
    ensures OneClone(s.pins) && OneClone(s.locations) && OneClone(s.npcs)
  {
  }
}
