/** What every run of journal requests keeps, and what sharing does. */
module JournalLaws {
  import opened Seqs
  import opened Journal

  /** At most one clone per source and recipient. */
  ghost predicate OneClone<B(!new)>(m: map<Id, Doc<B>>) {
    forall a, b :: a in m && b in m && m[a].clone.Some? && IsClone(m[b], m[a].clone.value.from, m[a].ownerPlayer) ==> a == b
  }

  predicate IdsBelow<B>(m: map<Id, Doc<B>>, next: Id) {
    forall id :: id in m ==> NO_ID < id < next
  }

  /** Pins on entries point at existing ones, other pins at nothing. */
  predicate PinRefers(s: State, pin: Pin) {
    match pin.pinType
    case On(k) => pin.entity in Of(s, k)
    case _ => pin.entity == NO_ID
  }

  predicate PinsRefer(s: State) {
    forall p :: p in s.pins ==> PinRefers(s, s.pins[p].body)
  }

  ghost predicate Inv(s: State) {
    && NO_ID < s.next
    && IdsBelow(s.locations, s.next) && IdsBelow(s.npcs, s.next) && IdsBelow(s.pins, s.next)
    && OneClone(s.locations) && OneClone(s.npcs) && OneClone(s.pins)
    && PinsRefer(s)
  }

  /** Everything stays as it is; what is new has a new id. */
  predicate Grows<B(==)>(m: map<Id, Doc<B>>, n: map<Id, Doc<B>>, next: Id) {
    && (forall id :: id in m ==> id in n && n[id] == m[id])
    && (forall id :: id in n && id !in m ==> next <= id)
  }

  predicate Extends(s: State, t: State) {
    && s.next <= t.next
    && Grows(s.locations, t.locations, s.next) && Grows(s.npcs, t.npcs, s.next) && Grows(s.pins, t.pins, s.next)
  }

  lemma ExtendsTwice(s: State, t: State, u: State)
    requires Extends(s, t) && Extends(t, u)
    ensures Extends(s, u)
  {
  }

  lemma FoundIs<B(!new)>(m: map<Id, Doc<B>>, id: Id, source: Id, owner: string)
    requires OneClone(m) && id in m && IsClone(m[id], source, owner)
    ensures FindClone(m, source, owner) == Some(id)
  {
  }

  /** A clone that is found is found again in every extension. */
  lemma StillFound<B(!new)>(m: map<Id, Doc<B>>, n: map<Id, Doc<B>>, next: Id, source: Id, owner: string)
    requires Grows(m, n, next) && OneClone(n) && FindClone(m, source, owner).Some?
    ensures FindClone(n, source, owner) == FindClone(m, source, owner)
  {
    FoundIs(n, FindClone(m, source, owner).value, source, owner);
  }

  lemma InsertClone<B(!new)>(m: map<Id, Doc<B>>, id: Id, d: Doc<B>, source: Id, owner: string)
    requires OneClone(m) && id !in m && IsClone(d, source, owner) && FindClone(m, source, owner) == None
    ensures OneClone(m[id := d]) && FindClone(m[id := d], source, owner) == Some(id)
  {
    var n := m[id := d];
    assert forall a :: a in m ==> !IsClone(m[a], source, owner);
    FoundIs(n, id, source, owner);
  }

  /** Inserting a clone of one source makes no clone of another. */
  lemma NotFoundYet<B(!new)>(m: map<Id, Doc<B>>, id: Id, d: Doc<B>, source: Id, owner: string, other: Id)
    requires id !in m && IsClone(d, source, owner) && other != source && FindClone(m, other, owner) == None
    ensures FindClone(m[id := d], other, owner) == None
  {
    var n := m[id := d];
    assert forall a :: a in m ==> !IsClone(m[a], other, owner);
    assert forall a :: a in n ==> !IsClone(n[a], other, owner);
  }

  lemma CreateKeepsInv(s: State, k: Kind, d: Doc<Entry>)
    requires Inv(s) && OneClone(Of(s, k)[s.next := d])
    ensures Inv(Create(s, k, d)) && Extends(s, Create(s, k, d))
  {
  }

  lemma CreatePinKeepsInv(s: State, d: Doc<Pin>)
    requires Inv(s) && OneClone(s.pins[s.next := d]) && PinRefers(s, d.body)
    ensures Inv(CreatePin(s, d)) && Extends(s, CreatePin(s, d))
  {
  }

  // ---------------------------------------------------------------- linked entries

  lemma CloneLinkedOk(s: State, k: Kind, source: Id, to: Member)
    requires Inv(s)
    ensures var (t, id) := CloneLinked(s, k, source, to);
      && Inv(t) && Extends(s, t) && Of(t, Other(k)) == Of(s, Other(k)) && t.pins == s.pins
      && (if id == NO_ID then t == s && source !in Of(s, k) else true)
      && FindClone(Of(t, k), source, to.playerId) == (if id == NO_ID then None else Some(id))
      && (forall l :: l != source ==> FindClone(Of(t, k), l, to.playerId) == FindClone(Of(s, k), l, to.playerId))
  {
    var (t, id) := CloneLinked(s, k, source, to);
    if FindClone(Of(s, k), source, to.playerId) == None && source in Of(s, k) {
      var d := Of(t, k)[id];
      InsertClone(Of(s, k), s.next, d, source, to.playerId);
      CreateKeepsInv(s, k, d);
      forall l | l != source ensures FindClone(Of(t, k), l, to.playerId) == FindClone(Of(s, k), l, to.playerId) {
        if FindClone(Of(s, k), l, to.playerId).Some? {
          StillFound(Of(s, k), Of(t, k), s.next, l, to.playerId);
        } else {
          NotFoundYet(Of(s, k), s.next, d, source, to.playerId, l);
        }
      }
    }
  }

  /** The map a cascade returns is exactly: the listed links of which the recipient now has a clone. */
  ghost predicate IsCloneMap(ids: map<Id, Id>, m: Entries, links: seq<Id>, owner: string, wanted: set<Id>) {
    forall l :: if l in links && l in wanted && FindClone(m, l, owner).Some?
                then l in ids && ids[l] == FindClone(m, l, owner).value
                else l !in ids
  }

  lemma CloneMapStep(ids: map<Id, Id>, m: Entries, n: Entries, links: seq<Id>, owner: string, wanted: set<Id>, id: Id)
    requires links != [] && Last(links) in wanted && IsCloneMap(ids, m, Init(links), owner, wanted)
    requires FindClone(n, Last(links), owner) == (if id == NO_ID then None else Some(id))
    requires forall l :: l != Last(links) ==> FindClone(n, l, owner) == FindClone(m, l, owner)
    requires id == NO_ID ==> n == m
    ensures IsCloneMap(if id == NO_ID then ids else ids[Last(links) := id], n, links, owner, wanted)
  {
    hide FindClone;
    assert links == Init(links) + [Last(links)];
  }

  lemma {:induction false} CascadeOk(s: State, k: Kind, links: seq<Id>, to: Member, wanted: set<Id>)
    requires Inv(s)
    ensures var (t, ids) := Cascade(s, k, links, to, wanted);
      && Inv(t) && Extends(s, t) && Of(t, Other(k)) == Of(s, Other(k)) && t.pins == s.pins
      && IsCloneMap(ids, Of(t, k), links, to.playerId, wanted)
  {
    if links != [] {
      var (t, ids) := Cascade(s, k, Init(links), to, wanted);
      CascadeOk(s, k, Init(links), to, wanted);
      assert links == Init(links) + [Last(links)];
      if Last(links) in wanted {
        var (u, id) := CloneLinked(t, k, Last(links), to);
        CloneLinkedOk(t, k, Last(links), to);
        assert Extends(s, u) by { ExtendsTwice(s, t, u); }
        CloneMapStep(ids, Of(t, k), Of(u, k), links, to.playerId, wanted, id);
        hide CloneLinked, FindClone, Inv, Extends, IsCloneMap;
        assert Cascade(s, k, links, to, wanted).0 == u;
      } else {
        assert IsCloneMap(ids, Of(t, k), links, to.playerId, wanted);
      }
    }
  }

  /** A cascade clones every listed link that exists, and nothing else gets a clone. */
  lemma {:induction false} CascadeReach(s: State, k: Kind, links: seq<Id>, to: Member, wanted: set<Id>, l: Id)
    requires Inv(s) && l < s.next
    ensures var t := Cascade(s, k, links, to, wanted).0;
      (FindClone(Of(t, k), l, to.playerId).Some? <==>
         FindClone(Of(s, k), l, to.playerId).Some? || (l in links && l in wanted && l in Of(s, k)))
  {
    if links != [] {
      var (t, ids) := Cascade(s, k, Init(links), to, wanted);
      CascadeOk(s, k, Init(links), to, wanted);
      CascadeReach(s, k, Init(links), to, wanted, l);
      assert links == Init(links) + [Last(links)];
      if Last(links) in wanted {
        CloneLinkedOk(t, k, Last(links), to);
        assert l in Of(t, k) <==> l in Of(s, k);
        hide Inv, FindClone, Extends;
      }
    }
  }

  lemma {:induction false} RewriteAt(links: seq<Id>, ids: map<Id, Id>)
    ensures |Rewrite(links, ids)| == |links|
    ensures forall i :: 0 <= i < |links| ==> Rewrite(links, ids)[i] == if links[i] in ids then ids[links[i]] else links[i]
  {
    if links != [] {
      RewriteAt(Init(links), ids);
    }
  }

  // ---------------------------------------------------------------- pins

  /** A copy made for a recipient: theirs, with its origin on record, and readable by nobody else. */
  ghost predicate IsPrivateCopy<B>(c: Doc<B>, d: Doc<B>, source: Id, to: Member, note: string) {
    && c.ownerPlayer == to.playerId && c.ownerUser == to.userId && c.note == note
    && c.clone == Some(CloneAudit(source, d.ownerPlayer))
    && forall player: string :: CanRead(c, player) <==> player == to.playerId
  }

  lemma ClonedIsPrivate<B(!new)>(d: Doc<B>, source: Id, to: Member, note: string, body: B)
    ensures IsPrivateCopy(Cloned(d, source, to, note, body), d, source, to, note)
  {
  }

  predicate PointsAt(pins: Pins, p: Id, k: Kind, source: Id) {
    p in pins && pins[p].body.entity == source && pins[p].body.pinType == On(k)
  }

  /** A pin that the cascade added: the recipient's copy of a listed pin, moved to the cloned entry. */
  ghost predicate IsMovedCopy(s: State, d: Doc<Pin>, k: Kind, source: Id, clone: Id, to: Member, pinIds: seq<Id>) {
    exists p :: p in pinIds && PointsAt(s.pins, p, k, source)
      && IsPrivateCopy(d, s.pins[p], p, to, s.pins[p].note) && d.body == s.pins[p].body.(entity := clone)
  }

  ghost predicate PinsCascaded(s: State, t: State, k: Kind, source: Id, clone: Id, to: Member, pinIds: seq<Id>) {
    && (forall p :: p in t.pins && p !in s.pins ==> IsMovedCopy(s, t.pins[p], k, source, clone, to, pinIds))
    && (forall p :: p in pinIds && PointsAt(s.pins, p, k, source) ==> FindClone(t.pins, p, to.playerId).Some?)
  }

  lemma {:induction false} CascadePinsOk(s: State, k: Kind, source: Id, clone: Id, to: Member, pinIds: seq<Id>)
    requires Inv(s) && clone in Of(s, k) && clone != source
    ensures var t := CascadePins(s, k, source, clone, to, pinIds);
      && Inv(t) && Extends(s, t) && t.locations == s.locations && t.npcs == s.npcs
      && PinsCascaded(s, t, k, source, clone, to, pinIds)
  {
    if pinIds != [] {
      var t, pin := CascadePins(s, k, source, clone, to, Init(pinIds)), Last(pinIds);
      CascadePinsOk(s, k, source, clone, to, Init(pinIds));
      if Copied(t.pins, pin, k, source, to) {
        PinCopied(s, t, k, source, clone, to, pinIds);
        hide Inv, Extends, FindClone, PinsCascaded, Copied;
      } else {
        assert pinIds == Init(pinIds) + [pin];
      }
    }
  }

  lemma PinCopied(s: State, t: State, k: Kind, source: Id, clone: Id, to: Member, pinIds: seq<Id>)
    requires pinIds != [] && clone in Of(t, k) && clone != source && Inv(t) && Extends(s, t)
    requires PinsCascaded(s, t, k, source, clone, to, Init(pinIds)) && Copied(t.pins, Last(pinIds), k, source, to)
    ensures var d := t.pins[Last(pinIds)];
      var u := CreatePin(t, Cloned(d, Last(pinIds), to, d.note, d.body.(entity := clone)));
      Inv(u) && Extends(s, u) && PinsCascaded(s, u, k, source, clone, to, pinIds)
  {
    var pin := Last(pinIds);
    var d := Cloned(t.pins[pin], pin, to, t.pins[pin].note, t.pins[pin].body.(entity := clone));
    var u := CreatePin(t, d);
    InsertClone(t.pins, t.next, d, pin, to.playerId);
    CreatePinKeepsInv(t, d);
    assert Extends(s, u) by { ExtendsTwice(s, t, u); }
    assert IsMovedCopy(s, d, k, source, clone, to, pinIds) by {
      ClonedIsPrivate(t.pins[pin], pin, to, t.pins[pin].note, t.pins[pin].body.(entity := clone));
      assert pin in s.pins;
    }
    hide Inv, Extends, Copied;
    CopiesAdded(s, t, d, k, source, clone, to, pinIds);
  }

  lemma CopiesAdded(s: State, t: State, d: Doc<Pin>, k: Kind, source: Id, clone: Id, to: Member, pinIds: seq<Id>)
    requires pinIds != [] && PinsCascaded(s, t, k, source, clone, to, Init(pinIds))
    requires IsMovedCopy(s, d, k, source, clone, to, pinIds) && IsClone(d, Last(pinIds), to.playerId)
    requires Grows(t.pins, t.pins[t.next := d], t.next) && OneClone(t.pins[t.next := d])
    ensures PinsCascaded(s, CreatePin(t, d), k, source, clone, to, pinIds)
  {
    var u := CreatePin(t, d);
    assert pinIds == Init(pinIds) + [Last(pinIds)];
    forall p | p in pinIds && PointsAt(s.pins, p, k, source) ensures FindClone(u.pins, p, to.playerId).Some? {
      if p in Init(pinIds) {
        StillFound(t.pins, u.pins, t.next, p, to.playerId);
      } else {
        FoundIs(u.pins, t.next, p, to.playerId);
      }
    }
    forall p | p in u.pins && p !in s.pins ensures IsMovedCopy(s, u.pins[p], k, source, clone, to, pinIds) {
      if p != t.next { assert IsMovedCopy(s, t.pins[p], k, source, clone, to, Init(pinIds)); }
    }
  }
}
