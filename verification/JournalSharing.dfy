/** Sharing, request by request and over whole runs. */
module JournalSharing {
  import opened Seqs
  import opened Journal
  import opened JournalLaws

  /** What a fresh clone of an entry looks like. `s` is the journal before, `t` after. */
  ghost predicate IsFreshClone(s: State, t: State, k: Kind, source: Id, id: Id, to: Member, req: ShareRequest)
    requires source in Of(s, k)
  {
    var d := Of(s, k)[source];
    && id in Of(t, k) && id !in Of(s, k)
    && var c := Of(t, k)[id];
    && IsPrivateCopy(c, d, source, to, req.note) && c.body == d.body.(links := c.body.links)
    && |c.body.links| == |d.body.links|
    && forall i :: 0 <= i < |d.body.links| ==>
         c.body.links[i] == LinkFor(t, Other(k), d.body.links[i], to, req)
  }

  /** Where a link of the source leads in the clone. */
  ghost function LinkFor(t: State, k: Kind, link: Id, to: Member, req: ShareRequest): Id {
    if link in req.linkIds then FindClone(Of(t, k), link, to.playerId).GetOr(link) else link
  }

  /** The clone and its pins, once the links have been cascaded. */
  lemma PlaceClone(s: State, t: State, k: Kind, source: Id, c: Doc<Entry>, to: Member, pinIds: seq<Id>)
    requires Inv(t) && Extends(s, t) && t.pins == s.pins && source in Of(t, k)
    requires IsClone(c, source, to.playerId) && FindClone(Of(t, k), source, to.playerId) == None
    ensures var v := CascadePins(Create(t, k, c), k, source, t.next, to, pinIds);
      && Inv(v) && Extends(s, v) && Of(v, k) == Of(t, k)[t.next := c] && Of(v, Other(k)) == Of(t, Other(k))
      && FindClone(Of(v, k), source, to.playerId) == Some(t.next)
      && PinsCascaded(s, v, k, source, t.next, to, pinIds)
  {
    InsertClone(Of(t, k), t.next, c, source, to.playerId);
    CreateKeepsInv(t, k, c);
    var u := Create(t, k, c);
    CascadePinsOk(u, k, source, t.next, to, pinIds);
    var v := CascadePins(u, k, source, t.next, to, pinIds);
    assert Extends(s, v) by { ExtendsTwice(s, t, u); ExtendsTwice(s, u, v); }
    hide Inv, Extends, CascadePins, FindClone;
  }

  lemma RewrittenLinks(v: State, t: State, k: Kind, links: seq<Id>, ids: map<Id, Id>, to: Member, req: ShareRequest)
    requires IsCloneMap(ids, Of(t, k), links, to.playerId, Elems(req.linkIds)) && Of(v, k) == Of(t, k)
    ensures |Rewrite(links, ids)| == |links|
    ensures forall i :: 0 <= i < |links| ==> Rewrite(links, ids)[i] == LinkFor(v, k, links[i], to, req)
  {
    hide FindClone;
    RewriteAt(links, ids);
    forall i | 0 <= i < |links| ensures Rewrite(links, ids)[i] == LinkFor(v, k, links[i], to, req) {
      assert links[i] in links;
    }
  }

  lemma CloneEntryOk(s: State, k: Kind, source: Id, d: Doc<Entry>, to: Member, req: ShareRequest)
    requires Inv(s) && source in Of(s, k) && Of(s, k)[source] == d
    ensures var (t, id) := CloneEntry(s, k, source, d, to, req);
      && Inv(t) && Extends(s, t)
      && FindClone(Of(t, k), source, to.playerId) == Some(id)
      && (FindClone(Of(s, k), source, to.playerId) == None ==>
            && IsFreshClone(s, t, k, source, id, to, req)
            && PinsCascaded(s, t, k, source, id, to, req.pinIds))
  {
    if FindClone(Of(s, k), source, to.playerId) == None {
      var (t, ids) := Cascade(s, Other(k), d.body.links, to, Elems(req.linkIds));
      CascadeOk(s, Other(k), d.body.links, to, Elems(req.linkIds));
      var c := Cloned(d, source, to, req.note, d.body.(links := Rewrite(d.body.links, ids)));
      PlaceClone(s, t, k, source, c, to, req.pinIds);
      var v := CascadePins(Create(t, k, c), k, source, t.next, to, req.pinIds);
      RewrittenLinks(v, t, Other(k), d.body.links, ids, to, req);
      ClonedIsPrivate(d, source, to, req.note, c.body);
      hide IsPrivateCopy, LinkFor, Inv, Extends, CascadePins, FindClone, PinsCascaded, Cascade;
    }
  }

  /** A listed link of the source has a clone afterwards exactly if it was there to be cloned, or its
      clone already was. */
  lemma ListedLinks(s: State, k: Kind, source: Id, d: Doc<Entry>, to: Member, req: ShareRequest, l: Id)
    requires Inv(s) && source in Of(s, k) && Of(s, k)[source] == d
    requires FindClone(Of(s, k), source, to.playerId) == None
    requires l in d.body.links && l in req.linkIds && l < s.next
    ensures var o := Other(k);
      (FindClone(Of(CloneEntry(s, k, source, d, to, req).0, o), l, to.playerId).Some? <==>
         l in Of(s, o) || FindClone(Of(s, o), l, to.playerId).Some?)
  {
    var (t, ids) := Cascade(s, Other(k), d.body.links, to, Elems(req.linkIds));
    CascadeOk(s, Other(k), d.body.links, to, Elems(req.linkIds));
    CascadeReach(s, Other(k), d.body.links, to, Elems(req.linkIds), l);
    var c := Cloned(d, source, to, req.note, d.body.(links := Rewrite(d.body.links, ids)));
    PlaceClone(s, t, k, source, c, to, req.pinIds);
    hide Inv, Extends, CascadePins, FindClone, PinsCascaded, Cascade;
  }

  /** The recipients' clones, in the order of the recipients. */
  ghost predicate ClonesOf<B(!new)>(m: map<Id, Doc<B>>, source: Id, to: seq<Member>, ids: seq<Id>) {
    |ids| == |to| && forall i :: 0 <= i < |to| ==> FindClone(m, source, to[i].playerId) == Some(ids[i])
  }

  lemma ClonesOfSnoc<B(!new)>(m: map<Id, Doc<B>>, n: map<Id, Doc<B>>, next: Id, source: Id, to: seq<Member>, ids: seq<Id>, id: Id)
    requires to != [] && ClonesOf(m, source, Init(to), ids) && Grows(m, n, next) && OneClone(n)
    requires FindClone(n, source, Last(to).playerId) == Some(id)
    ensures ClonesOf(n, source, to, ids + [id])
  {
    forall i | 0 <= i < |to| ensures FindClone(n, source, to[i].playerId) == Some((ids + [id])[i]) {
      if i < |ids| {
        assert Init(to)[i] == to[i];
        StillFound(m, n, next, source, to[i].playerId);
      }
    }
  }

  /** A share adds documents, changes none, and ends with one clone per recipient. */
  lemma {:induction false} ShareEntryOk(s: State, k: Kind, source: Id, d: Doc<Entry>, to: seq<Member>, req: ShareRequest)
    requires Inv(s) && source in Of(s, k) && Of(s, k)[source] == d
    ensures var (t, ids) := ShareEntry(s, k, source, d, to, req);
      Inv(t) && Extends(s, t) && ClonesOf(Of(t, k), source, to, ids)
  {
    if to != [] {
      var (t, ids) := ShareEntry(s, k, source, d, Init(to), req);
      ShareEntryOk(s, k, source, d, Init(to), req);
      var (u, id) := CloneEntry(t, k, source, d, Last(to), req);
      CloneEntryOk(t, k, source, d, Last(to), req);
      ClonesOfSnoc(Of(t, k), Of(u, k), t.next, source, to, ids, id);
      assert Extends(s, u) by { ExtendsTwice(s, t, u); }
      hide CloneEntry, Extends, Inv, ClonesOf, FindClone, IsFreshClone, PinsCascaded;
      assert ShareEntry(s, k, source, d, to, req) == (u, ids + [id]);
    }
  }

  lemma ClonePinOk(s: State, source: Id, d: Doc<Pin>, to: Member, note: string, cascade: bool)
    requires Inv(s) && source in s.pins && s.pins[source] == d
    ensures var (t, id) := ClonePin(s, source, d, to, note, cascade);
      && Inv(t) && Extends(s, t) && FindClone(t.pins, source, to.playerId) == Some(id)
      && (FindClone(s.pins, source, to.playerId) == None ==>
            && id in t.pins && id !in s.pins
            && IsPrivateCopy(t.pins[id], d, source, to, note) && t.pins[id].body == d.body.(entity := t.pins[id].body.entity)
            && (d.body.pinType.On? && cascade ==>
                  FindClone(Of(t, d.body.pinType.kind), d.body.entity, to.playerId) == Some(t.pins[id].body.entity))
            && (!d.body.pinType.On? || !cascade ==> t.pins[id].body.entity == d.body.entity))
  {
    if FindClone(s.pins, source, to.playerId) == None {
      assert PinRefers(s, d.body);
      var t, body := s, d.body;
      if cascade && d.body.entity != NO_ID && d.body.pinType.On? {
        var (t', entity) := CloneLinked(s, d.body.pinType.kind, d.body.entity, to);
        CloneLinkedOk(s, d.body.pinType.kind, d.body.entity, to);
        t, body := t', d.body.(entity := entity);
      }
      var c := Cloned(d, source, to, note, body);
      PlacePin(s, t, source, c, to);
      ClonedIsPrivate(d, source, to, note, body);
      hide IsPrivateCopy, Inv, Extends, FindClone, CloneLinked;
    }
  }

  lemma PlacePin(s: State, t: State, source: Id, c: Doc<Pin>, to: Member)
    requires Inv(t) && Extends(s, t) && IsClone(c, source, to.playerId) && PinRefers(t, c.body)
    requires FindClone(t.pins, source, to.playerId) == None
    ensures var u := CreatePin(t, c);
      Inv(u) && Extends(s, u) && FindClone(u.pins, source, to.playerId) == Some(t.next) && t.next !in s.pins
  {
    InsertClone(t.pins, t.next, c, source, to.playerId);
    CreatePinKeepsInv(t, c);
    assert Extends(s, CreatePin(t, c)) by { ExtendsTwice(s, t, CreatePin(t, c)); }
  }

  lemma {:induction false} SharePinOk(s: State, source: Id, d: Doc<Pin>, to: seq<Member>, note: string, cascade: bool)
    requires Inv(s) && source in s.pins && s.pins[source] == d
    ensures var (t, ids) := SharePin(s, source, d, to, note, cascade);
      Inv(t) && Extends(s, t) && ClonesOf(t.pins, source, to, ids)
  {
    if to != [] {
      var (t, ids) := SharePin(s, source, d, Init(to), note, cascade);
      SharePinOk(s, source, d, Init(to), note, cascade);
      var (u, id) := ClonePin(t, source, d, Last(to), note, cascade);
      ClonePinOk(t, source, d, Last(to), note, cascade);
      ClonesOfSnoc(t.pins, u.pins, t.next, source, to, ids, id);
      assert Extends(s, u) by { ExtendsTwice(s, t, u); }
      hide ClonePin, Extends, Inv, ClonesOf, FindClone;
      assert SharePin(s, source, d, to, note, cascade) == (u, ids + [id]);
    }
  }

  // ---------------------------------------------------------------- every request, every run

  lemma RemoveKeepsInv(s: State, k: Kind, id: Id)
    requires Inv(s)
    ensures Inv(Remove(s, k, id))
  {
  }

  lemma EditKeepsOneClone<B(!new)>(m: map<Id, Doc<B>>, id: Id, d: Doc<B>)
    requires OneClone(m) && id in m && d.clone == m[id].clone && d.ownerPlayer == m[id].ownerPlayer
    ensures OneClone(m[id := d])
  {
    var n := m[id := d];
    forall a, b | a in n && b in n && n[a].clone.Some? && IsClone(n[b], n[a].clone.value.from, n[a].ownerPlayer) ensures a == b {
      assert IsClone(m[b], m[a].clone.value.from, m[a].ownerPlayer);
    }
  }

  lemma NewKeepsOneClone<B(!new)>(m: map<Id, Doc<B>>, id: Id, d: Doc<B>)
    requires OneClone(m) && id !in m && d.clone == None
    ensures OneClone(m[id := d])
  {
  }

  /** Uniqueness of clones and referential integrity survive every request: creation, edits, the delete
      cascade and all three ways of sharing. */
  lemma HandleKeepsInv(s: State, members: seq<Member>, caller: Member, r: Request)
    requires Inv(s)
    ensures Inv(Handle(s, members, caller, r).0)
  {
    match r
    case NewEntry(k, e) => NewEntryKeepsInv(s, members, caller, r);
    case EditEntry(k, id, p) => EditEntryKeepsInv(s, members, caller, r);
    case DeleteEntry(k, id) => RemoveKeepsInv(s, k, id);
    case NewPin(pin) => NewPinKeepsInv(s, members, caller, r);
    case EditPin(id, p) => EditPinKeepsInv(s, members, caller, r);
    case DeletePin(id) =>
    case ShareEntries(k, id, to, all, share) =>
      if Refusal(Of(s, k), id, caller) == None {
        var d := Of(s, k)[id];
        var recipients := Recipients(members, d.ownerPlayer, to, all);
        if recipients.Ok? { ShareEntryOk(s, k, id, d, recipients.value, share); }
      }
    case SharePins(id, to, all, note, cascade) =>
      if Refusal(s.pins, id, caller) == None {
        var d := s.pins[id];
        var recipients := Recipients(members, d.ownerPlayer, to, all);
        if recipients.Ok? { SharePinOk(s, id, d, recipients.value, note, cascade); }
      }
  }

  lemma NewEntryKeepsInv(s: State, members: seq<Member>, caller: Member, r: Request)
    requires Inv(s) && r.NewEntry?
    ensures Inv(Handle(s, members, caller, r).0)
  {
    var t := Handle(s, members, caller, r).0;
    if t != s {
      NewKeepsOneClone(Of(s, r.kind), s.next, Of(t, r.kind)[s.next]);
      CreateKeepsInv(s, r.kind, Of(t, r.kind)[s.next]);
    }
  }

  lemma PutKeepsInv(s: State, k: Kind, id: Id, d: Doc<Entry>)
    requires Inv(s) && id in Of(s, k) && OneClone(Of(s, k)[id := d])
    ensures Inv(Put(s, k, id, d))
  {
  }

  lemma EditEntryKeepsInv(s: State, members: seq<Member>, caller: Member, r: Request)
    requires Inv(s) && r.EditEntry?
    ensures Inv(Handle(s, members, caller, r).0)
  {
    var t := Handle(s, members, caller, r).0;
    if t != s {
      var d := PatchedEntry(r.kind, Of(s, r.kind)[r.id], r.entryPatch);
      EditKeepsOneClone(Of(s, r.kind), r.id, d);
      PutKeepsInv(s, r.kind, r.id, d);
    }
    hide Inv, PatchedEntry;
  }

  lemma NewPinKeepsInv(s: State, members: seq<Member>, caller: Member, r: Request)
    requires Inv(s) && r.NewPin?
    ensures Inv(Handle(s, members, caller, r).0)
  {
    var t := Handle(s, members, caller, r).0;
    if t != s {
      NewKeepsOneClone(s.pins, s.next, t.pins[s.next]);
      CreatePinKeepsInv(s, t.pins[s.next]);
    }
  }

  lemma EditPinKeepsInv(s: State, members: seq<Member>, caller: Member, r: Request)
    requires Inv(s) && r.EditPin?
    ensures Inv(Handle(s, members, caller, r).0)
  {
    var t := Handle(s, members, caller, r).0;
    if t != s {
      EditKeepsOneClone(s.pins, r.id, t.pins[r.id]);
      assert PinRefers(s, s.pins[r.id].body);
    }
  }

  datatype Event = Event(members: seq<Member>, caller: Member, request: Request)

  const NOTHING := State(map[], map[], map[], 1)

  /** A campaign's journal after a run of requests. Membership may change from request to request. */
  ghost function Exec(s: State, run: seq<Event>): State {
    if run == [] then s
    else Handle(Exec(s, Init(run)), Last(run).members, Last(run).caller, Last(run).request).0
  }

  lemma {:induction false} ExecKeepsInv(s: State, run: seq<Event>)
    requires Inv(s)
    ensures Inv(Exec(s, run))
  {
    hide Handle, Inv;
    if run != [] {
      ExecKeepsInv(s, Init(run));
      HandleKeepsInv(Exec(s, Init(run)), Last(run).members, Last(run).caller, Last(run).request);
    }
  }

  /** In every reachable journal a source has at most one clone per recipient, in each collection. */
  lemma AtMostOneClone(run: seq<Event>)
    ensures var s := Exec(NOTHING, run); OneClone(s.locations) && OneClone(s.npcs) && OneClone(s.pins)
  {
    ExecKeepsInv(NOTHING, run);
  }

  /** In every reachable journal every location pin names an existing location, every NPC pin an
      existing NPC, and no other pin names anything. */
  lemma PinsReferToEntries(run: seq<Event>)
    ensures PinsRefer(Exec(NOTHING, run))
  {
    ExecKeepsInv(NOTHING, run);
  }

  // ---------------------------------------------------------------- sharing again

  predicate Deletes(r: Request) {
    r.DeleteEntry? || r.DeletePin?
  }

  /** Documents stay, with their owners and clone audits. */
  predicate Preserved<B(==)>(m: map<Id, Doc<B>>, n: map<Id, Doc<B>>) {
    forall id :: id in m ==> id in n && n[id].clone == m[id].clone && n[id].ownerPlayer == m[id].ownerPlayer
  }

  predicate AllPreserved(s: State, t: State) {
    Preserved(s.locations, t.locations) && Preserved(s.npcs, t.npcs) && Preserved(s.pins, t.pins)
  }

  lemma ClonesPersist<B(!new)>(m: map<Id, Doc<B>>, n: map<Id, Doc<B>>, source: Id, to: seq<Member>, ids: seq<Id>)
    requires Preserved(m, n) && OneClone(n) && ClonesOf(m, source, to, ids)
    ensures ClonesOf(n, source, to, ids)
  {
    forall i | 0 <= i < |to| ensures FindClone(n, source, to[i].playerId) == Some(ids[i]) {
      FoundIs(n, ids[i], source, to[i].playerId);
    }
  }

  lemma ExtendsPreserves(s: State, t: State)
    requires Extends(s, t)
    ensures AllPreserved(s, t)
  {
  }

  lemma CreatePreserves(s: State, k: Kind, d: Doc<Entry>)
    requires IdsBelow(s.locations, s.next) && IdsBelow(s.npcs, s.next)
    ensures AllPreserved(s, Create(s, k, d))
  {
  }

  lemma PutPreserves(s: State, k: Kind, id: Id, d: Doc<Entry>)
    requires id in Of(s, k) && d.clone == Of(s, k)[id].clone && d.ownerPlayer == Of(s, k)[id].ownerPlayer
    ensures AllPreserved(s, Put(s, k, id, d))
  {
  }

  lemma EntryWritesPreserve(s: State, members: seq<Member>, caller: Member, r: Request)
    requires IdsBelow(s.locations, s.next) && IdsBelow(s.npcs, s.next)
    requires r.NewEntry? || r.EditEntry?
    ensures AllPreserved(s, Handle(s, members, caller, r).0)
  {
    var t := Handle(s, members, caller, r).0;
    if r.NewEntry? && t != s {
      CreatePreserves(s, r.kind, Of(t, r.kind)[s.next]);
    } else if t != s {
      PutPreserves(s, r.kind, r.id, Of(t, r.kind)[r.id]);
    }
    hide Preserved;
  }

  lemma PinWritesPreserve(s: State, members: seq<Member>, caller: Member, r: Request)
    requires IdsBelow(s.pins, s.next)
    requires r.NewPin? || r.EditPin?
    ensures AllPreserved(s, Handle(s, members, caller, r).0)
  {
  }

  /** Edits cannot touch owners or clone audits, shares only add. */
  lemma HandlePreserves(s: State, members: seq<Member>, caller: Member, r: Request)
    requires Inv(s) && !Deletes(r)
    ensures AllPreserved(s, Handle(s, members, caller, r).0)
  {
    match r
    case ShareEntries(k, id, to, all, share) =>
      if Refusal(Of(s, k), id, caller) == None {
        var d := Of(s, k)[id];
        var recipients := Recipients(members, d.ownerPlayer, to, all);
        if recipients.Ok? {
          ShareEntryOk(s, k, id, d, recipients.value, share);
          ExtendsPreserves(s, ShareEntry(s, k, id, d, recipients.value, share).0);
          hide Inv, Extends, AllPreserved, ClonesOf;
        }
      }
    case SharePins(id, to, all, note, cascade) =>
      if Refusal(s.pins, id, caller) == None {
        var d := s.pins[id];
        var recipients := Recipients(members, d.ownerPlayer, to, all);
        if recipients.Ok? {
          SharePinOk(s, id, d, recipients.value, note, cascade);
          ExtendsPreserves(s, SharePin(s, id, d, recipients.value, note, cascade).0);
          hide Inv, Extends, AllPreserved, ClonesOf;
        }
      }
    case NewEntry(_, _) => EntryWritesPreserve(s, members, caller, r);
    case EditEntry(_, _, _) => EntryWritesPreserve(s, members, caller, r);
    case NewPin(_) => PinWritesPreserve(s, members, caller, r);
    case EditPin(_, _) => PinWritesPreserve(s, members, caller, r);
  }

  lemma {:induction false} ExecPreserves(s: State, run: seq<Event>)
    requires Inv(s) && forall i :: 0 <= i < |run| ==> !Deletes(run[i].request)
    ensures AllPreserved(s, Exec(s, run))
  {
    if run != [] {
      hide Handle, Inv;
      ExecPreserves(s, Init(run));
      ExecKeepsInv(s, Init(run));
      assert !Deletes(run[|run| - 1].request);
      HandlePreserves(Exec(s, Init(run)), Last(run).members, Last(run).caller, Last(run).request);
    }
  }

  lemma {:induction false} ShareEntryFindsAll(s: State, k: Kind, source: Id, d: Doc<Entry>, to: seq<Member>,
      req: ShareRequest, ids: seq<Id>)
    requires ClonesOf(Of(s, k), source, to, ids)
    ensures ShareEntry(s, k, source, d, to, req) == (s, ids)
  {
    if to != [] {
      assert ids == Init(ids) + [Last(ids)];
      ShareEntryFindsAll(s, k, source, d, Init(to), req, Init(ids));
    }
  }

  lemma {:induction false} SharePinFindsAll(s: State, source: Id, d: Doc<Pin>, to: seq<Member>, note: string,
      cascade: bool, ids: seq<Id>)
    requires ClonesOf(s.pins, source, to, ids)
    ensures SharePin(s, source, d, to, note, cascade) == (s, ids)
  {
    if to != [] {
      assert ids == Init(ids) + [Last(ids)];
      SharePinFindsAll(s, source, d, Init(to), note, cascade, Init(ids));
    }
  }

  /** Sharing an entry again with the same members (some perhaps named twice), right away or after any
      requests that delete nothing, inserts nothing and returns the same clones, whatever is to be
      cascaded this time. */
  lemma ShareEntryAgain(s: State, members: seq<Member>, caller: Member, first: Request, between: seq<Event>, again: Request)
    requires Inv(s) && first.ShareEntries? && again.ShareEntries?
    requires again == first.(share := again.share) && Handle(s, members, caller, first).1.Shared?
    requires forall i :: 0 <= i < |between| ==> !Deletes(between[i].request)
    ensures var (t, reply) := Handle(s, members, caller, first);
      var u := Exec(t, between);
      Handle(u, members, caller, again) == (u, reply)
  {
    var (t, reply) := Handle(s, members, caller, first);
    var u := Exec(t, between);
    var d := Of(s, first.kind)[first.id];
    var recipients := Recipients(members, d.ownerPlayer, first.to, first.all);
    ShareEntryOk(s, first.kind, first.id, d, recipients.value, first.share);
    ExecPreserves(t, between);
    ExecKeepsInv(t, between);
    ClonesPersist(Of(t, first.kind), Of(u, first.kind), first.id, recipients.value, reply.clones);
    ShareEntryFindsAll(u, first.kind, first.id, Of(u, first.kind)[first.id], recipients.value, again.share, reply.clones);
    hide ShareEntry, ClonesOf, Exec, FindClone;
  }

  /** The same for pins, whether or not the entry is to be cascaded. */
  lemma SharePinAgain(s: State, members: seq<Member>, caller: Member, first: Request, between: seq<Event>, again: Request)
    requires Inv(s) && first.SharePins? && again.SharePins?
    requires again == first.(note := again.note, cascade := again.cascade) && Handle(s, members, caller, first).1.Shared?
    requires forall i :: 0 <= i < |between| ==> !Deletes(between[i].request)
    ensures var (t, reply) := Handle(s, members, caller, first);
      var u := Exec(t, between);
      Handle(u, members, caller, again) == (u, reply)
  {
    var (t, reply) := Handle(s, members, caller, first);
    var u := Exec(t, between);
    var d := s.pins[first.id];
    var recipients := Recipients(members, d.ownerPlayer, first.to, first.all);
    SharePinOk(s, first.id, d, recipients.value, first.note, first.cascade);
    ExecPreserves(t, between);
    ExecKeepsInv(t, between);
    ClonesPersist(t.pins, u.pins, first.id, recipients.value, reply.clones);
    SharePinFindsAll(u, first.id, u.pins[first.id], recipients.value, again.note, again.cascade, reply.clones);
    hide SharePin, ClonesOf, Exec, FindClone;
  }

  // ---------------------------------------------------------------- whose documents change

  /** Documents of others are as before. */
  predicate OthersStay<B(==)>(m: map<Id, Doc<B>>, n: map<Id, Doc<B>>, caller: Member) {
    forall id :: id in m && m[id].ownerPlayer != caller.playerId ==> id in n && n[id] == m[id]
  }

  predicate TouchesOwn(s: State, caller: Member, r: Request, t: State, reply: Reply) {
    && OthersStay(s.locations, t.locations, caller) && OthersStay(s.npcs, t.npcs, caller)
    && (!r.DeleteEntry? ==> OthersStay(s.pins, t.pins, caller))
    && (r.DeleteEntry? ==> forall p :: p in s.pins && s.pins[p].body.entity != r.id ==> p in t.pins && t.pins[p] == s.pins[p])
    && (reply.Shared? ==> Extends(s, t))
    && (reply.BadRequest? || reply.NotFound? || reply.Forbidden? ==> t == s)
  }

  /** A member changes only documents of their own, except that deleting an entry takes the pins on it;
      sharing changes no document at all, and a refused request nothing. */
  lemma OnlyOwnersChangeDocuments(s: State, members: seq<Member>, caller: Member, r: Request)
    requires Inv(s)
    ensures var (t, reply) := Handle(s, members, caller, r); TouchesOwn(s, caller, r, t, reply)
  {
    match r
    case ShareEntries(k, id, to, all, share) => SharesTouchNothing(s, members, caller, r);
    case SharePins(id, to, all, note, cascade) => SharesTouchNothing(s, members, caller, r);
    case _ => WritesTouchOwn(s, members, caller, r);
  }

  lemma ExtensionTouchesNothing(s: State, caller: Member, r: Request, t: State, reply: Reply)
    requires Extends(s, t) && reply.Shared? && !r.DeleteEntry?
    ensures TouchesOwn(s, caller, r, t, reply)
  {
  }

  lemma SharesTouchNothing(s: State, members: seq<Member>, caller: Member, r: Request)
    requires Inv(s) && (r.ShareEntries? || r.SharePins?)
    ensures var (t, reply) := Handle(s, members, caller, r); TouchesOwn(s, caller, r, t, reply)
  {
    var (t, reply) := Handle(s, members, caller, r);
    if reply.Shared? {
      if r.ShareEntries? {
        var d := Of(s, r.kind)[r.id];
        ShareEntryOk(s, r.kind, r.id, d, Recipients(members, d.ownerPlayer, r.to, r.all).value, r.share);
      } else {
        var d := s.pins[r.id];
        SharePinOk(s, r.id, d, Recipients(members, d.ownerPlayer, r.to, r.all).value, r.note, r.cascade);
      }
      ExtensionTouchesNothing(s, caller, r, t, reply);
    } else {
      assert t == s;
    }
    hide Inv, Extends, ClonesOf;
  }

  lemma WritesTouchOwn(s: State, members: seq<Member>, caller: Member, r: Request)
    requires IdsBelow(s.locations, s.next) && IdsBelow(s.npcs, s.next) && IdsBelow(s.pins, s.next)
    requires !r.ShareEntries? && !r.SharePins?
    ensures var (t, reply) := Handle(s, members, caller, r); TouchesOwn(s, caller, r, t, reply)
  {
    hide Normalize, CanRead, ParentAllowed, Extends;
  }

  /** An accepted deletion takes the entry and exactly the pins on it, and no other document. */
  lemma DeletionTakesItsPins(s: State, members: seq<Member>, caller: Member, k: Kind, id: Id)
    requires Handle(s, members, caller, DeleteEntry(k, id)).1 == Changed
    ensures var t := Handle(s, members, caller, DeleteEntry(k, id)).0;
      && Of(s, k)[id].ownerPlayer == caller.playerId
      && (forall e :: e in Of(t, k) <==> e in Of(s, k) && e != id)
      && (forall e :: e in Of(t, k) ==> Of(t, k)[e] == Of(s, k)[e]) && Of(t, Other(k)) == Of(s, Other(k))
      && (forall p :: p in t.pins <==> p in s.pins && s.pins[p].body.entity != id)
      && (forall p :: p in t.pins ==> t.pins[p] == s.pins[p])
  {
  }

  // ---------------------------------------------------------------- what a pin is on

  /** Type, entry, owner and origin are as before. */
  predicate SamePin(d: Doc<Pin>, e: Doc<Pin>) {
    && e.body.pinType == d.body.pinType && e.body.entity == d.body.entity
    && e.ownerPlayer == d.ownerPlayer && e.ownerUser == d.ownerUser && e.clone == d.clone
  }

  /** Ids are not reused, and a pin that is still there is on what it was on. */
  predicate PinsStay(s: State, t: State) {
    s.next <= t.next && forall p :: p in t.pins && p < s.next ==> p in s.pins && SamePin(s.pins[p], t.pins[p])
  }

  lemma HandlePinsStay(s: State, members: seq<Member>, caller: Member, r: Request)
    requires Inv(s)
    ensures PinsStay(s, Handle(s, members, caller, r).0)
  {
    match r
    case ShareEntries(_, _, _, _, _) => SharesTouchNothing(s, members, caller, r); SharedExtends(s, members, caller, r);
    case SharePins(_, _, _, _, _) => SharesTouchNothing(s, members, caller, r); SharedExtends(s, members, caller, r);
    case _ => WritesPinsStay(s, members, caller, r);
  }

  lemma SharedExtends(s: State, members: seq<Member>, caller: Member, r: Request)
    requires Inv(s) && (r.ShareEntries? || r.SharePins?)
    requires var (t, reply) := Handle(s, members, caller, r); TouchesOwn(s, caller, r, t, reply)
    ensures PinsStay(s, Handle(s, members, caller, r).0)
  {
    var (t, reply) := Handle(s, members, caller, r);
    assert reply.Shared? || t == s;
    hide Inv;
  }

  lemma WritesPinsStay(s: State, members: seq<Member>, caller: Member, r: Request)
    requires !r.ShareEntries? && !r.SharePins?
    ensures PinsStay(s, Handle(s, members, caller, r).0)
  {
    hide Normalize, CanRead, ParentAllowed;
  }

  /** Over any requests, a pin never moves: while it exists its type, entry, owner and origin stay. */
  lemma {:induction false} PinsNeverMove(s: State, run: seq<Event>)
    requires Inv(s)
    ensures PinsStay(s, Exec(s, run))
  {
    hide Handle, Inv;
    if run != [] {
      var t := Exec(s, Init(run));
      PinsNeverMove(s, Init(run));
      ExecKeepsInv(s, Init(run));
      HandlePinsStay(t, Last(run).members, Last(run).caller, Last(run).request);
    }
  }
}
