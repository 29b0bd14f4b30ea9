/** Who gets what when a member shares an entry or a pin. */
module JournalCopies {
  import opened Seqs
  import opened Journal
  import opened JournalLaws
  import opened JournalSharing

  // ---------------------------------------------------------------- the recipients

  predicate IsPlayer(members: seq<Member>, player: string) {
    exists k :: 0 <= k < |members| && members[k].playerId == player
  }

  /** m is the last member with this player. */
  predicate LastWith(members: seq<Member>, player: string, m: Member) {
    m.playerId == player
    && exists k :: 0 <= k < |members| && members[k] == m && forall j :: k < j < |members| ==> members[j].playerId != player
  }

  lemma {:induction false} OthersAreKept(members: seq<Member>, owner: string, others: set<Member>)
    requires forall m :: m in members ==> (m in others <==> m.playerId != owner)
    ensures Others(members, owner) == Keep(members, others)
  {
    if members != [] {
      assert members == Init(members) + [Last(members)];
      OthersAreKept(Init(members), owner, others);
    }
  }

  lemma LastOfMore(members: seq<Member>, more: Member, player: string)
    requires more.playerId != player
    ensures IsPlayer(members, player) ==> IsPlayer(members + [more], player)
    ensures IsPlayer(members + [more], player) ==> IsPlayer(members, player)
    ensures forall m :: LastWith(members, player, m) ==> LastWith(members + [more], player, m)
  {
    var all := members + [more];
    if k :| 0 <= k < |all| && all[k].playerId == player { assert members[k].playerId == player; }
    if k :| 0 <= k < |members| && members[k].playerId == player { assert all[k].playerId == player; }
    forall m | LastWith(members, player, m) ensures LastWith(all, player, m) {
      var k :| 0 <= k < |members| && members[k] == m && forall j :: k < j < |members| ==> members[j].playerId != player;
      assert all[k] == m;
    }
  }

  lemma {:induction false} MemberOfIsLast(members: seq<Member>, player: string)
    ensures match MemberOf(members, player)
      case None => !IsPlayer(members, player)
      case Some(m) => IsPlayer(members, player) && LastWith(members, player, m)
  {
    if members != [] {
      assert members == Init(members) + [Last(members)] && members[|members| - 1] == Last(members);
      if Last(members).playerId != player {
        hide LastWith, IsPlayer;
        MemberOfIsLast(Init(members), player);
        LastOfMore(Init(members), Last(members), player);
      }
    }
  }

  /** Somebody on the list is neither the owner nor a member. */
  predicate NamesAStranger(members: seq<Member>, owner: string, to: seq<string>) {
    exists p :: p in to && p != owner && !IsPlayer(members, p)
  }

  /** One entry per listed player other than the owner, in order, each the last member with that player. */
  predicate AreRecipients(members: seq<Member>, owner: string, to: seq<string>, r: seq<Member>) {
    var players := set p | p in to && p != owner;
    |r| == |Keep(to, players)| && forall i :: 0 <= i < |r| ==> LastWith(members, Keep(to, players)[i], r[i])
  }

  lemma {:induction false} ChosenAre(members: seq<Member>, owner: string, to: seq<string>, players: set<string>)
    requires forall p :: p in to ==> (p in players <==> p != owner)
    ensures match Chosen(members, owner, to)
      case Err(e) => e in to && e != owner && !IsPlayer(members, e)
      case Ok(r) =>
        && !NamesAStranger(members, owner, to)
        && |r| == |Keep(to, players)| && forall i :: 0 <= i < |r| ==> LastWith(members, Keep(to, players)[i], r[i])
  {
    hide LastWith, IsPlayer;
    if to != [] {
      assert to == Init(to) + [Last(to)];
      ChosenAre(members, owner, Init(to), players);
      MemberOfIsLast(members, Last(to));
    }
  }

  /** Sharing with all reaches every member but the owner, in order. Sharing with a list fails exactly if it
      names a stranger, and else reaches the listed players other than the owner. */
  lemma RecipientsAre(members: seq<Member>, owner: string, to: seq<string>, all: bool)
    ensures var r := Recipients(members, owner, to, all);
      if all then
        var others := set m | m in members && m.playerId != owner;
        r == Ok(Keep(members, others))
      else
        && (r.Err? <==> NamesAStranger(members, owner, to))
        && (r.Ok? ==> AreRecipients(members, owner, to, r.value))
  {
    hide LastWith, IsPlayer;
    OthersAreKept(members, owner, set m | m in members && m.playerId != owner);
    ChosenAre(members, owner, to, set p | p in to && p != owner);
  }

  // ---------------------------------------------------------------- linked copies

  /** A copy made along with something else: private, without a note, and a location without its links. */
  ghost predicate LinkedCopy(c: Doc<Entry>, d: Doc<Entry>, k: Kind, source: Id, to: Member) {
    && IsPrivateCopy(c, d, source, to, "")
    && c.body == d.body.(links := if k == Location then [] else d.body.links)
  }

  /** It is a copy of one of the listed links. */
  ghost predicate FromLink(m: Entries, c: Doc<Entry>, k: Kind, links: seq<Id>, to: Member, wanted: set<Id>) {
    exists l :: l in links && l in wanted && l in m && LinkedCopy(c, m[l], k, l, to)
  }

  lemma CloneLinkedCopy(s: State, k: Kind, source: Id, to: Member)
    ensures var (t, id) := CloneLinked(s, k, source, to);
      && t.next <= s.next + 1
      && forall e :: e in Of(t, k) && e !in Of(s, k) ==>
           source in Of(s, k) && source in Of(t, k) && LinkedCopy(Of(t, k)[e], Of(s, k)[source], k, source, to)
  {
    hide FindClone, IsPrivateCopy;
    if source in Of(s, k) {
      var d := Of(s, k)[source];
      ClonedIsPrivate(d, source, to, "", if k == Location then d.body.(links := []) else d.body);
    }
  }

  lemma StillFromLink(m: Entries, n: Entries, next: Id, c: Doc<Entry>, k: Kind, links: seq<Id>, more: seq<Id>, to: Member, wanted: set<Id>)
    requires FromLink(m, c, k, links, to, wanted) && Grows(m, n, next) && forall l :: l in links ==> l in more
    ensures FromLink(n, c, k, more, to, wanted)
  {
    hide LinkedCopy;
    var l :| l in links && l in wanted && l in m && LinkedCopy(c, m[l], k, l, to);
    assert l in more && n[l] == m[l];
  }

  lemma {:induction false} CascadeCopies(s: State, k: Kind, links: seq<Id>, to: Member, wanted: set<Id>)
    requires Inv(s)
    ensures var t := Cascade(s, k, links, to, wanted).0;
      forall e :: e in Of(t, k) && e !in Of(s, k) ==> FromLink(Of(t, k), Of(t, k)[e], k, links, to, wanted)
  {
    if links != [] {
      var (t, ids) := Cascade(s, k, Init(links), to, wanted);
      CascadeCopies(s, k, Init(links), to, wanted);
      CascadeOk(s, k, Init(links), to, wanted);
      assert links == Init(links) + [Last(links)];
      var u := Cascade(s, k, links, to, wanted).0;
      if Last(links) in wanted {
        CloneLinkedOk(t, k, Last(links), to);
        CloneLinkedCopy(t, k, Last(links), to);
      }
      assert Grows(Of(t, k), Of(u, k), t.next);
      hide CloneLinked, Cascade, Inv, Extends, FromLink, LinkedCopy;
      forall e | e in Of(u, k) && e !in Of(s, k) ensures FromLink(Of(u, k), Of(u, k)[e], k, links, to, wanted) {
        if e in Of(t, k) {
          StillFromLink(Of(t, k), Of(u, k), t.next, Of(t, k)[e], k, Init(links), links, to, wanted);
        } else {
          IsFromLink(Of(u, k), Of(u, k)[e], k, links, to, wanted, Last(links));
        }
      }
    }
  }

  lemma IsFromLink(m: Entries, c: Doc<Entry>, k: Kind, links: seq<Id>, to: Member, wanted: set<Id>, l: Id)
    requires l in links && l in wanted && l in m && LinkedCopy(c, m[l], k, l, to)
    ensures FromLink(m, c, k, links, to, wanted)
  {
  }

  // ---------------------------------------------------------------- sharing an entry

  lemma StillMoved(s: State, t: State, c: Doc<Pin>, k: Kind, source: Id, clone: Id, to: Member, pinIds: seq<Id>)
    requires IsMovedCopy(s, c, k, source, clone, to, pinIds) && Extends(s, t)
    ensures IsMovedCopy(t, c, k, source, clone, to, pinIds)
  {
    hide IsPrivateCopy;
    var p :| p in pinIds && PointsAt(s.pins, p, k, source)
      && IsPrivateCopy(c, s.pins[p], p, to, s.pins[p].note) && c.body == s.pins[p].body.(entity := clone);
    assert t.pins[p] == s.pins[p] && PointsAt(t.pins, p, k, source);
  }

  /** All that cloning an entry adds: the clone, copies of listed links, copies of listed pins. */
  ghost predicate Adds(s: State, t: State, k: Kind, source: Id, links: seq<Id>, to: Member, req: ShareRequest, id: Id) {
    var o := Other(k);
    && (forall e :: e in Of(t, k) && e !in Of(s, k) ==> e == id)
    && (forall e :: e in Of(t, o) && e !in Of(s, o) ==> FromLink(Of(t, o), Of(t, o)[e], o, links, to, Elems(req.linkIds)))
    && (forall p :: p in t.pins && p !in s.pins ==> IsMovedCopy(t, t.pins[p], k, source, id, to, req.pinIds))
  }

  lemma CloneEntryAdds(s: State, k: Kind, source: Id, d: Doc<Entry>, to: Member, req: ShareRequest)
    requires Inv(s) && source in Of(s, k) && Of(s, k)[source] == d
    ensures var (t, id) := CloneEntry(s, k, source, d, to, req);
      Adds(s, t, k, source, d.body.links, to, req, id)
  {
    if FindClone(Of(s, k), source, to.playerId) == None {
      var o, wanted := Other(k), Elems(req.linkIds);
      var (t, ids) := Cascade(s, o, d.body.links, to, wanted);
      CascadeOk(s, o, d.body.links, to, wanted);
      CascadeCopies(s, o, d.body.links, to, wanted);
      var c := Cloned(d, source, to, req.note, d.body.(links := Rewrite(d.body.links, ids)));
      PlaceClone(s, t, k, source, c, to, req.pinIds);
      var v := CascadePins(Create(t, k, c), k, source, t.next, to, req.pinIds);
      hide FromLink, Inv, Extends, CascadePins, FindClone, Cascade, IsMovedCopy;
      forall p | p in v.pins && p !in s.pins ensures IsMovedCopy(v, v.pins[p], k, source, t.next, to, req.pinIds) {
        StillMoved(s, v, v.pins[p], k, source, t.next, to, req.pinIds);
      }
    }
  }

  lemma LinkOwned(m: Entries, c: Doc<Entry>, k: Kind, links: seq<Id>, to: Member, wanted: set<Id>)
    requires FromLink(m, c, k, links, to, wanted)
    ensures c.ownerPlayer == to.playerId
  {
  }

  lemma MovedOwned(s: State, c: Doc<Pin>, k: Kind, source: Id, clone: Id, to: Member, pinIds: seq<Id>)
    requires IsMovedCopy(s, c, k, source, clone, to, pinIds)
    ensures c.ownerPlayer == to.playerId
  {
  }

  /** What is added belongs to the recipient. */
  lemma AddedIsOwned(s: State, t: State, k: Kind, source: Id, links: seq<Id>, to: Member, req: ShareRequest, id: Id)
    requires Adds(s, t, k, source, links, to, req, id) && FindClone(Of(t, k), source, to.playerId) == Some(id)
    ensures NewBelongTo(s, t, {to.playerId})
  {
    hide FromLink, IsMovedCopy;
    var o := Other(k);
    forall e | e in Of(t, o) && e !in Of(s, o) ensures Of(t, o)[e].ownerPlayer == to.playerId {
      LinkOwned(Of(t, o), Of(t, o)[e], o, links, to, Elems(req.linkIds));
    }
    forall p | p in t.pins && p !in s.pins ensures t.pins[p].ownerPlayer == to.playerId {
      MovedOwned(t, t.pins[p], k, source, id, to, req.pinIds);
    }
  }

  predicate NewIn<B>(m: map<Id, Doc<B>>, n: map<Id, Doc<B>>, players: set<string>) {
    forall e :: e in n && e !in m ==> n[e].ownerPlayer in players
  }

  /** Every new document belongs to one of the players. */
  predicate NewBelongTo(s: State, t: State, players: set<string>) {
    NewIn(s.locations, t.locations, players) && NewIn(s.npcs, t.npcs, players) && NewIn(s.pins, t.pins, players)
  }

  /** Other players' clones are found as before. */
  lemma FoundAlike<B(!new)>(m: map<Id, Doc<B>>, n: map<Id, Doc<B>>, next: Id, players: set<string>, source: Id, owner: string)
    requires Grows(m, n, next) && OneClone(n) && NewIn(m, n, players) && owner !in players
    ensures FindClone(n, source, owner) == FindClone(m, source, owner)
  {
    if FindClone(m, source, owner).Some? {
      StillFound(m, n, next, source, owner);
    } else {
      assert forall id :: id in m ==> !IsClone(m[id], source, owner);
      assert forall id :: id in n ==> !IsClone(n[id], source, owner);
    }
  }

  /** The recipient had no clone before and is not named earlier in the list. */
  ghost predicate IsNew(s: State, k: Kind, source: Id, to: seq<Member>, i: nat)
    requires i < |to|
  {
    FindClone(Of(s, k), source, to[i].playerId) == None && forall j :: 0 <= j < i ==> to[j].playerId != to[i].playerId
  }

  /** What a new recipient has got. */
  ghost predicate EntryGiven(s: State, t: State, k: Kind, source: Id, id: Id, to: Member, req: ShareRequest)
    requires source in Of(s, k)
  {
    && IsFreshClone(s, t, k, source, id, to, req)
    && forall p :: p in req.pinIds && PointsAt(s.pins, p, k, source) ==> FindClone(t.pins, p, to.playerId).Some?
  }

  ghost predicate EachGiven(s: State, t: State, k: Kind, source: Id, to: seq<Member>, req: ShareRequest, ids: seq<Id>)
    requires source in Of(s, k)
  {
    |ids| == |to| && forall i :: 0 <= i < |to| && IsNew(s, k, source, to, i) ==> EntryGiven(s, t, k, source, ids[i], to[i], req)
  }

  lemma GivenStays(s: State, t: State, u: State, k: Kind, source: Id, id: Id, to: Member, req: ShareRequest, players: set<string>)
    requires Inv(u) && Extends(s, t) && Extends(t, u) && source in Of(s, k) && EntryGiven(s, t, k, source, id, to, req)
    requires NewBelongTo(t, u, players) && to.playerId !in players
    ensures EntryGiven(s, u, k, source, id, to, req)
  {
    var d := Of(s, k)[source];
    forall l ensures LinkFor(t, Other(k), l, to, req) == LinkFor(u, Other(k), l, to, req) {
      FoundAlike(Of(t, Other(k)), Of(u, Other(k)), t.next, players, l, to.playerId);
    }
    forall p | p in req.pinIds && PointsAt(s.pins, p, k, source) ensures FindClone(u.pins, p, to.playerId).Some? {
      StillFound(t.pins, u.pins, t.next, p, to.playerId);
    }
    hide LinkFor, FindClone, IsPrivateCopy, Inv;
  }

  /** A fresh clone made on a later journal is as fresh on the one before. */
  lemma GivenSince(s: State, t: State, u: State, k: Kind, source: Id, id: Id, to: Member, req: ShareRequest)
    requires Extends(s, t) && Extends(t, u) && source in Of(s, k) && source in Of(t, k)
    requires IsFreshClone(t, u, k, source, id, to, req) && PinsCascaded(t, u, k, source, id, to, req.pinIds)
    ensures EntryGiven(s, u, k, source, id, to, req)
  {
    hide LinkFor, FindClone, IsPrivateCopy, IsMovedCopy;
  }

  lemma NobodyYet(s: State, t: State, k: Kind, source: Id, to: seq<Member>, ids: seq<Id>)
    requires to != [] && ClonesOf(Of(t, k), source, Init(to), ids) && IsNew(s, k, source, to, |to| - 1)
    requires Extends(s, t) && forall e :: e in Of(t, k) && e !in Of(s, k) ==> e in ids
    ensures FindClone(Of(t, k), source, Last(to).playerId) == None
  {
    var owner := Last(to).playerId;
    forall e | e in Of(t, k) ensures !IsClone(Of(t, k)[e], source, owner) {
      if e in Of(s, k) {
        assert !IsClone(Of(s, k)[e], source, owner);
      } else {
        var i :| 0 <= i < |ids| && ids[i] == e;
        assert FindClone(Of(t, k), source, Init(to)[i].playerId) == Some(e);
        assert Init(to)[i] == to[i];
      }
    }
  }

  /** Where the new documents of a share come from. */
  ghost predicate AllAdded(s: State, t: State, k: Kind, source: Id, links: seq<Id>, to: seq<Member>, req: ShareRequest, ids: seq<Id>) {
    var o := Other(k);
    && |ids| == |to|
    && (forall e :: e in Of(t, k) && e !in Of(s, k) ==> e in ids)
    && (forall e :: e in Of(t, o) && e !in Of(s, o) ==>
          exists i :: 0 <= i < |to| && FromLink(Of(t, o), Of(t, o)[e], o, links, to[i], Elems(req.linkIds)))
    && (forall p :: p in t.pins && p !in s.pins ==>
          exists i :: 0 <= i < |to| && IsMovedCopy(t, t.pins[p], k, source, ids[i], to[i], req.pinIds))
  }

  lemma AddedOneMore(s: State, t: State, u: State, k: Kind, source: Id, links: seq<Id>, to: seq<Member>, req: ShareRequest, ids: seq<Id>, id: Id)
    requires to != [] && AllAdded(s, t, k, source, links, Init(to), req, ids) && Extends(s, t) && Extends(t, u)
    requires Adds(t, u, k, source, links, Last(to), req, id)
    ensures AllAdded(s, u, k, source, links, to, req, ids + [id])
  {
    hide FromLink, IsMovedCopy;
    var o, all := Other(k), ids + [id];
    assert all[|ids|] == id && to[|ids|] == Last(to);
    assert forall e :: e in ids ==> e in all;
    assert id in all;
    forall e | e in Of(u, o) && e !in Of(s, o)
      ensures exists i :: 0 <= i < |to| && FromLink(Of(u, o), Of(u, o)[e], o, links, to[i], Elems(req.linkIds))
    {
      if e in Of(t, o) {
        var i :| 0 <= i < |Init(to)| && FromLink(Of(t, o), Of(t, o)[e], o, links, Init(to)[i], Elems(req.linkIds));
        StillFromLink(Of(t, o), Of(u, o), t.next, Of(t, o)[e], o, links, links, Init(to)[i], Elems(req.linkIds));
        assert to[i] == Init(to)[i];
      } else {
        assert FromLink(Of(u, o), Of(u, o)[e], o, links, to[|ids|], Elems(req.linkIds));
      }
    }
    forall p | p in u.pins && p !in s.pins
      ensures exists i :: 0 <= i < |to| && IsMovedCopy(u, u.pins[p], k, source, all[i], to[i], req.pinIds)
    {
      if p in t.pins {
        var i :| 0 <= i < |Init(to)| && IsMovedCopy(t, t.pins[p], k, source, ids[i], Init(to)[i], req.pinIds);
        StillMoved(t, u, t.pins[p], k, source, ids[i], Init(to)[i], req.pinIds);
        assert to[i] == Init(to)[i] && all[i] == ids[i];
      } else {
        assert IsMovedCopy(u, u.pins[p], k, source, all[|ids|], to[|ids|], req.pinIds);
      }
    }
  }

  lemma GivenOneMore(s: State, t: State, k: Kind, source: Id, d: Doc<Entry>, to: seq<Member>, req: ShareRequest, ids: seq<Id>)
    requires to != [] && Inv(t) && Extends(s, t) && source in Of(s, k) && source in Of(t, k) && Of(t, k)[source] == d
    requires EachGiven(s, t, k, source, Init(to), req, ids) && ClonesOf(Of(t, k), source, Init(to), ids)
    requires forall e :: e in Of(t, k) && e !in Of(s, k) ==> e in ids
    ensures var (u, id) := CloneEntry(t, k, source, d, Last(to), req);
      EachGiven(s, u, k, source, to, req, ids + [id])
  {
    var (u, id) := CloneEntry(t, k, source, d, Last(to), req);
    CloneEntryOk(t, k, source, d, Last(to), req);
    CloneEntryAdds(t, k, source, d, Last(to), req);
    AddedIsOwned(t, u, k, source, d.body.links, Last(to), req, id);
    var n := |to| - 1;
    forall i | 0 <= i < |to| && IsNew(s, k, source, to, i) ensures EntryGiven(s, u, k, source, (ids + [id])[i], to[i], req) {
      if i == n {
        NobodyYet(s, t, k, source, to, ids);
        GivenSince(s, t, u, k, source, id, Last(to), req);
      } else {
        assert Init(to)[i] == to[i] && IsNew(s, k, source, Init(to), i);
        if to[i].playerId == Last(to).playerId {
          assert FindClone(Of(t, k), source, to[i].playerId) == Some(ids[i]);
          assert u == t;
        } else {
          GivenStays(s, t, u, k, source, ids[i], to[i], req, {Last(to).playerId});
        }
      }
    }
  }

  /** A share gives every new recipient a clone with its pins, and adds nothing but the recipients' clones and
      copies of listed links and pins. */
  lemma {:induction false} ShareEntryGives(s: State, k: Kind, source: Id, d: Doc<Entry>, to: seq<Member>, req: ShareRequest)
    requires Inv(s) && source in Of(s, k) && Of(s, k)[source] == d
    ensures var (t, ids) := ShareEntry(s, k, source, d, to, req);
      && EachGiven(s, t, k, source, to, req, ids)
      && AllAdded(s, t, k, source, d.body.links, to, req, ids)
  {
    if to != [] {
      var (t, ids) := ShareEntry(s, k, source, d, Init(to), req);
      ShareEntryGives(s, k, source, d, Init(to), req);
      ShareEntryOk(s, k, source, d, Init(to), req);
      var (u, id) := CloneEntry(t, k, source, d, Last(to), req);
      CloneEntryOk(t, k, source, d, Last(to), req);
      CloneEntryAdds(t, k, source, d, Last(to), req);
      GivenOneMore(s, t, k, source, d, to, req, ids);
      AddedOneMore(s, t, u, k, source, d.body.links, to, req, ids, id);
      hide CloneEntry, Extends, Inv, ClonesOf, EachGiven, AllAdded, Adds, FindClone;
      assert ShareEntry(s, k, source, d, to, req) == (u, ids + [id]);
    }
  }

  // ---------------------------------------------------------------- sharing a pin

  /** The copy of what the pin is on, made if the share cascades. */
  ghost predicate FromEntity(t: State, c: Doc<Entry>, k: Kind, pin: Pin, to: Member, cascade: bool) {
    cascade && pin.pinType == On(k) && pin.entity in Of(t, k) && LinkedCopy(c, Of(t, k)[pin.entity], k, pin.entity, to)
  }

  ghost predicate PinAdds(s: State, t: State, d: Doc<Pin>, to: Member, cascade: bool, id: Id) {
    && (forall p :: p in t.pins && p !in s.pins ==> p == id)
    && forall k, e :: e in Of(t, k) && e !in Of(s, k) ==> FromEntity(t, Of(t, k)[e], k, d.body, to, cascade)
  }

  lemma ClonePinAdds(s: State, source: Id, d: Doc<Pin>, to: Member, note: string, cascade: bool)
    requires Inv(s)
    ensures var (t, id) := ClonePin(s, source, d, to, note, cascade); PinAdds(s, t, d, to, cascade, id)
  {
    hide FindClone, LinkedCopy, Inv, CloneLinked;
    var t := ClonePin(s, source, d, to, note, cascade).0;
    if FindClone(s.pins, source, to.playerId) == None && cascade && d.body.entity != NO_ID && d.body.pinType.On? {
      var k := d.body.pinType.kind;
      CloneLinkedOk(s, k, d.body.entity, to);
      CloneLinkedCopy(s, k, d.body.entity, to);
      forall o, e | e in Of(t, o) && e !in Of(s, o) ensures FromEntity(t, Of(t, o)[e], o, d.body, to, cascade) {
        assert o == k || o == Other(k);
        assert Of(t, o) == Of(CloneLinked(s, k, d.body.entity, to).0, o);
        if o == k { assert d.body.entity in Of(t, k); }
      }
    } else {
      assert t.locations == s.locations && t.npcs == s.npcs;
    }
  }

  lemma EntityOwned(t: State, c: Doc<Entry>, k: Kind, pin: Pin, to: Member, cascade: bool)
    requires FromEntity(t, c, k, pin, to, cascade)
    ensures c.ownerPlayer == to.playerId
  {
  }

  lemma PinAddedIsOwned(s: State, t: State, source: Id, d: Doc<Pin>, to: Member, cascade: bool, id: Id)
    requires PinAdds(s, t, d, to, cascade, id) && FindClone(t.pins, source, to.playerId) == Some(id)
    ensures NewBelongTo(s, t, {to.playerId})
  {
    assert forall p :: p in t.pins && p !in s.pins ==> t.pins[p].ownerPlayer == to.playerId;
    hide FromEntity, FindClone;
    forall k, e | e in Of(t, k) && e !in Of(s, k) ensures Of(t, k)[e].ownerPlayer == to.playerId {
      EntityOwned(t, Of(t, k)[e], k, d.body, to, cascade);
    }
    assert Of(s, Location) == s.locations && Of(s, Npc) == s.npcs && Of(t, Location) == t.locations && Of(t, Npc) == t.npcs;
  }

  ghost predicate PinIsNew(s: State, source: Id, to: seq<Member>, i: nat)
    requires i < |to|
  {
    FindClone(s.pins, source, to[i].playerId) == None && forall j :: 0 <= j < i ==> to[j].playerId != to[i].playerId
  }

  /** A fresh pin clone: private, the same pin, on the recipient's clone of the entry if the share cascades. */
  ghost predicate PinGiven(s: State, t: State, source: Id, d: Doc<Pin>, id: Id, to: Member, note: string, cascade: bool) {
    && id in t.pins && id !in s.pins
    && var c := t.pins[id];
    && IsPrivateCopy(c, d, source, to, note) && c.body == d.body.(entity := c.body.entity)
    && if d.body.pinType.On? && cascade
       then FindClone(Of(t, d.body.pinType.kind), d.body.entity, to.playerId) == Some(c.body.entity)
       else c.body.entity == d.body.entity
  }

  ghost predicate EachPinGiven(s: State, t: State, source: Id, d: Doc<Pin>, to: seq<Member>, note: string, cascade: bool, ids: seq<Id>) {
    |ids| == |to| && forall i :: 0 <= i < |to| && PinIsNew(s, source, to, i) ==> PinGiven(s, t, source, d, ids[i], to[i], note, cascade)
  }

  ghost predicate AllPinsAdded(s: State, t: State, d: Doc<Pin>, to: seq<Member>, cascade: bool, ids: seq<Id>) {
    && |ids| == |to|
    && (forall p :: p in t.pins && p !in s.pins ==> p in ids)
    && forall k, e :: e in Of(t, k) && e !in Of(s, k) ==>
         exists i :: 0 <= i < |to| && FromEntity(t, Of(t, k)[e], k, d.body, to[i], cascade)
  }

  lemma PinGivenStays(s: State, t: State, u: State, source: Id, d: Doc<Pin>, id: Id, to: Member, note: string, cascade: bool, players: set<string>)
    requires Inv(u) && Extends(s, t) && Extends(t, u) && PinGiven(s, t, source, d, id, to, note, cascade)
    requires NewBelongTo(t, u, players) && to.playerId !in players
    ensures PinGiven(s, u, source, d, id, to, note, cascade)
  {
    if d.body.pinType.On? {
      var k := d.body.pinType.kind;
      FoundAlike(Of(t, k), Of(u, k), t.next, players, d.body.entity, to.playerId);
    }
    hide FindClone, IsPrivateCopy, Inv;
  }

  lemma PinGivenSince(s: State, t: State, u: State, source: Id, d: Doc<Pin>, id: Id, to: Member, note: string, cascade: bool)
    requires Extends(s, t) && PinGiven(t, u, source, d, id, to, note, cascade)
    ensures PinGiven(s, u, source, d, id, to, note, cascade)
  {
    hide FindClone, IsPrivateCopy;
  }

  lemma FreshPinGiven(t: State, source: Id, d: Doc<Pin>, to: Member, note: string, cascade: bool)
    requires Inv(t) && source in t.pins && t.pins[source] == d && FindClone(t.pins, source, to.playerId) == None
    ensures var (u, id) := ClonePin(t, source, d, to, note, cascade); PinGiven(t, u, source, d, id, to, note, cascade)
  {
    ClonePinOk(t, source, d, to, note, cascade);
    hide FindClone, IsPrivateCopy, Inv, Extends, ClonePin;
  }

  lemma NoPinYet(s: State, t: State, source: Id, to: seq<Member>, ids: seq<Id>)
    requires to != [] && ClonesOf(t.pins, source, Init(to), ids) && PinIsNew(s, source, to, |to| - 1)
    requires Extends(s, t) && forall p :: p in t.pins && p !in s.pins ==> p in ids
    ensures FindClone(t.pins, source, Last(to).playerId) == None
  {
    var owner := Last(to).playerId;
    forall p | p in t.pins ensures !IsClone(t.pins[p], source, owner) {
      if p in s.pins {
        assert !IsClone(s.pins[p], source, owner);
      } else {
        var i :| 0 <= i < |ids| && ids[i] == p;
        assert FindClone(t.pins, source, Init(to)[i].playerId) == Some(p);
        assert Init(to)[i] == to[i];
      }
    }
  }

  lemma PinAddedOneMore(s: State, t: State, u: State, d: Doc<Pin>, to: seq<Member>, cascade: bool, ids: seq<Id>, id: Id)
    requires to != [] && AllPinsAdded(s, t, d, Init(to), cascade, ids) && Extends(s, t) && Extends(t, u)
    requires PinAdds(t, u, d, Last(to), cascade, id)
    ensures AllPinsAdded(s, u, d, to, cascade, ids + [id])
  {
    var all := ids + [id];
    assert all[|ids|] == id && to[|ids|] == Last(to);
    assert forall e :: e in ids ==> e in all;
    assert id in all;
    hide LinkedCopy;
    forall k, e | e in Of(u, k) && e !in Of(s, k)
      ensures exists i :: 0 <= i < |to| && FromEntity(u, Of(u, k)[e], k, d.body, to[i], cascade)
    {
      if e in Of(t, k) {
        var i :| 0 <= i < |Init(to)| && FromEntity(t, Of(t, k)[e], k, d.body, Init(to)[i], cascade);
        assert to[i] == Init(to)[i] && FromEntity(u, Of(u, k)[e], k, d.body, to[i], cascade);
      } else {
        assert FromEntity(u, Of(u, k)[e], k, d.body, to[|ids|], cascade);
      }
    }
  }

  lemma PinFound(t: State, source: Id, d: Doc<Pin>, to: Member, note: string, cascade: bool, id: Id)
    requires FindClone(t.pins, source, to.playerId) == Some(id)
    ensures ClonePin(t, source, d, to, note, cascade) == (t, id)
  {
  }

  lemma PinGivenOneMore(s: State, t: State, source: Id, d: Doc<Pin>, to: seq<Member>, note: string, cascade: bool, ids: seq<Id>)
    requires to != [] && Inv(t) && Extends(s, t) && source in t.pins && t.pins[source] == d
    requires EachPinGiven(s, t, source, d, Init(to), note, cascade, ids) && ClonesOf(t.pins, source, Init(to), ids)
    requires forall p :: p in t.pins && p !in s.pins ==> p in ids
    ensures var (u, id) := ClonePin(t, source, d, Last(to), note, cascade);
      EachPinGiven(s, u, source, d, to, note, cascade, ids + [id])
  {
    var (u, id) := ClonePin(t, source, d, Last(to), note, cascade);
    ClonePinOk(t, source, d, Last(to), note, cascade);
    ClonePinAdds(t, source, d, Last(to), note, cascade);
    PinAddedIsOwned(t, u, source, d, Last(to), cascade, id);
    var n := |to| - 1;
    hide PinGiven, Inv, Extends, PinAdds, NewBelongTo, ClonePin;
    forall i | 0 <= i < |to| && PinIsNew(s, source, to, i)
      ensures PinGiven(s, u, source, d, (ids + [id])[i], to[i], note, cascade)
    {
      if i == n {
        NoPinYet(s, t, source, to, ids);
        FreshPinGiven(t, source, d, Last(to), note, cascade);
        PinGivenSince(s, t, u, source, d, id, Last(to), note, cascade);
      } else {
        assert Init(to)[i] == to[i] && PinIsNew(s, source, Init(to), i);
        if to[i].playerId == Last(to).playerId {
          PinFound(t, source, d, Last(to), note, cascade, ids[i]);
        } else {
          PinGivenStays(s, t, u, source, d, ids[i], to[i], note, cascade, {Last(to).playerId});
        }
      }
    }
  }

  /** The same for pins: every new recipient gets one, and nothing else is added but, if the share cascades,
      copies of the entry. */
  lemma {:induction false} SharePinGives(s: State, source: Id, d: Doc<Pin>, to: seq<Member>, note: string, cascade: bool)
    requires Inv(s) && source in s.pins && s.pins[source] == d
    ensures var (t, ids) := SharePin(s, source, d, to, note, cascade);
      EachPinGiven(s, t, source, d, to, note, cascade, ids) && AllPinsAdded(s, t, d, to, cascade, ids)
  {
    if to != [] {
      var (t, ids) := SharePin(s, source, d, Init(to), note, cascade);
      SharePinGives(s, source, d, Init(to), note, cascade);
      SharePinOk(s, source, d, Init(to), note, cascade);
      var (u, id) := ClonePin(t, source, d, Last(to), note, cascade);
      ClonePinOk(t, source, d, Last(to), note, cascade);
      ClonePinAdds(t, source, d, Last(to), note, cascade);
      PinGivenOneMore(s, t, source, d, to, note, cascade, ids);
      PinAddedOneMore(s, t, u, d, to, cascade, ids, id);
      hide ClonePin, Extends, Inv, ClonesOf, EachPinGiven, AllPinsAdded, PinAdds, FindClone;
      assert SharePin(s, source, d, to, note, cascade) == (u, ids + [id]);
    }
  }

  // ---------------------------------------------------------------- the share requests

  /** All members but the owner, or the listed ones. */
  predicate Reached(members: seq<Member>, owner: string, to: seq<string>, all: bool, r: seq<Member>) {
    if all then
      var others := set m | m in members && m.playerId != owner;
      r == Keep(members, others)
    else AreRecipients(members, owner, to, r)
  }

  /** Whom a share can add anything for. */
  function Audience(members: seq<Member>, owner: string, to: seq<string>, all: bool): set<string> {
    if all then set m | m in members && m.playerId != owner :: m.playerId else set p | p in to && p != owner
  }

  lemma ReachedAreAudience(members: seq<Member>, owner: string, to: seq<string>, all: bool, r: seq<Member>)
    requires Reached(members, owner, to, all, r)
    ensures forall i :: 0 <= i < |r| ==> r[i].playerId in Audience(members, owner, to, all)
  {
    if all {
      assert forall i :: 0 <= i < |r| ==> r[i] in r;
    } else {
      var players := set p | p in to && p != owner;
      var ids := Keep(to, players);
      forall i | 0 <= i < |r| ensures r[i].playerId in players {
        assert LastWith(members, ids[i], r[i]);
        assert ids[i] in ids;
      }
    }
  }

  lemma AddedForAudience(s: State, t: State, k: Kind, source: Id, links: seq<Id>, to: seq<Member>, req: ShareRequest, ids: seq<Id>, players: set<string>)
    requires AllAdded(s, t, k, source, links, to, req, ids) && ClonesOf(Of(t, k), source, to, ids)
    requires forall i :: 0 <= i < |to| ==> to[i].playerId in players
    ensures NewBelongTo(s, t, players)
  {
    var o := Other(k);
    forall e | e in Of(t, k) && e !in Of(s, k) ensures Of(t, k)[e].ownerPlayer in players {
      var i :| 0 <= i < |ids| && ids[i] == e;
      assert FindClone(Of(t, k), source, to[i].playerId) == Some(e);
    }
    hide FromLink, IsMovedCopy, FindClone;
    forall e | e in Of(t, o) && e !in Of(s, o) ensures Of(t, o)[e].ownerPlayer in players {
      var i :| 0 <= i < |to| && FromLink(Of(t, o), Of(t, o)[e], o, links, to[i], Elems(req.linkIds));
      LinkOwned(Of(t, o), Of(t, o)[e], o, links, to[i], Elems(req.linkIds));
    }
    forall p | p in t.pins && p !in s.pins ensures t.pins[p].ownerPlayer in players {
      var i :| 0 <= i < |to| && IsMovedCopy(t, t.pins[p], k, source, ids[i], to[i], req.pinIds);
      MovedOwned(t, t.pins[p], k, source, ids[i], to[i], req.pinIds);
    }
  }

  lemma PinAddedForAudience(s: State, t: State, source: Id, d: Doc<Pin>, to: seq<Member>, cascade: bool, ids: seq<Id>, players: set<string>)
    requires AllPinsAdded(s, t, d, to, cascade, ids) && ClonesOf(t.pins, source, to, ids)
    requires forall i :: 0 <= i < |to| ==> to[i].playerId in players
    ensures NewBelongTo(s, t, players)
  {
    forall p | p in t.pins && p !in s.pins ensures t.pins[p].ownerPlayer in players {
      var i :| 0 <= i < |ids| && ids[i] == p;
      assert FindClone(t.pins, source, to[i].playerId) == Some(p);
    }
    hide FromEntity, FindClone;
    forall k, e | e in Of(t, k) && e !in Of(s, k) ensures Of(t, k)[e].ownerPlayer in players {
      var i :| 0 <= i < |to| && FromEntity(t, Of(t, k)[e], k, d.body, to[i], cascade);
      EntityOwned(t, Of(t, k)[e], k, d.body, to[i], cascade);
    }
    assert Of(s, Location) == s.locations && Of(s, Npc) == s.npcs && Of(t, Location) == t.locations && Of(t, Npc) == t.npcs;
  }

  /** Why a share is refused. */
  predicate ShareAnswers<B>(m: map<Id, Doc<B>>, members: seq<Member>, caller: Member, id: Id, to: seq<string>, all: bool, reply: Reply) {
    && (reply == NotFound <==> id !in m)
    && (reply == Forbidden <==> id in m && m[id].ownerPlayer != caller.playerId)
    && (reply == BadRequest <==>
          id in m && m[id].ownerPlayer == caller.playerId && !all && NamesAStranger(members, caller.playerId, to))
    && (reply.Shared? <==>
          id in m && m[id].ownerPlayer == caller.playerId && (all || !NamesAStranger(members, caller.playerId, to)))
  }

  /** Sharing an entry: refused unless it is the caller's and no stranger is named. Otherwise the reply lists
      one clone for each player reached, in order; every new recipient has got a faithful private clone and the
      listed pins; and every new document belongs to one of the players reached. */
  lemma ShareReaches(s: State, members: seq<Member>, caller: Member, r: Request) returns (to: seq<Member>)
    requires Inv(s) && r.ShareEntries?
    ensures var (t, reply) := Handle(s, members, caller, r);
      && ShareAnswers(Of(s, r.kind), members, caller, r.id, r.to, r.all, reply)
      && (!reply.Shared? ==> t == s)
      && (reply.Shared? ==>
            && Reached(members, caller.playerId, r.to, r.all, to)
            && Extends(s, t) && ClonesOf(Of(t, r.kind), r.id, to, reply.clones)
            && EachGiven(s, t, r.kind, r.id, to, r.share, reply.clones)
            && AllAdded(s, t, r.kind, r.id, Of(s, r.kind)[r.id].body.links, to, r.share, reply.clones)
            && NewBelongTo(s, t, Audience(members, caller.playerId, r.to, r.all)))
  {
    hide Recipients, NamesAStranger, AreRecipients, EachGiven, AllAdded, ClonesOf, NewBelongTo, Extends, Inv, ShareEntry, Audience;
    to := [];
    RecipientsAre(members, caller.playerId, r.to, r.all);
    if Refusal(Of(s, r.kind), r.id, caller) == None {
      var recipients := Recipients(members, caller.playerId, r.to, r.all);
      if recipients.Ok? {
        to := recipients.value;
        var d := Of(s, r.kind)[r.id];
        ShareEntryOk(s, r.kind, r.id, d, to, r.share);
        ShareEntryGives(s, r.kind, r.id, d, to, r.share);
        ReachedAreAudience(members, caller.playerId, r.to, r.all, to);
        var (t, ids) := ShareEntry(s, r.kind, r.id, d, to, r.share);
        AddedForAudience(s, t, r.kind, r.id, d.body.links, to, r.share, ids, Audience(members, caller.playerId, r.to, r.all));
      }
    }
  }

  /** The same for pins. */
  lemma SharePinsReaches(s: State, members: seq<Member>, caller: Member, r: Request) returns (to: seq<Member>)
    requires Inv(s) && r.SharePins?
    ensures var (t, reply) := Handle(s, members, caller, r);
      && ShareAnswers(s.pins, members, caller, r.id, r.to, r.all, reply)
      && (!reply.Shared? ==> t == s)
      && (reply.Shared? ==>
            && Reached(members, caller.playerId, r.to, r.all, to)
            && Extends(s, t) && ClonesOf(t.pins, r.id, to, reply.clones)
            && EachPinGiven(s, t, r.id, s.pins[r.id], to, r.note, r.cascade, reply.clones)
            && AllPinsAdded(s, t, s.pins[r.id], to, r.cascade, reply.clones)
            && NewBelongTo(s, t, Audience(members, caller.playerId, r.to, r.all)))
  {
    hide Recipients, NamesAStranger, AreRecipients, EachPinGiven, AllPinsAdded, ClonesOf, NewBelongTo, Extends, Inv, SharePin, Audience;
    to := [];
    RecipientsAre(members, caller.playerId, r.to, r.all);
    if Refusal(s.pins, r.id, caller) == None {
      var recipients := Recipients(members, caller.playerId, r.to, r.all);
      if recipients.Ok? {
        to := recipients.value;
        var d := s.pins[r.id];
        SharePinOk(s, r.id, d, to, r.note, r.cascade);
        SharePinGives(s, r.id, d, to, r.note, r.cascade);
        ReachedAreAudience(members, caller.playerId, r.to, r.all, to);
        var (t, ids) := SharePin(s, r.id, d, to, r.note, r.cascade);
        PinAddedForAudience(s, t, r.id, d, to, r.cascade, ids, Audience(members, caller.playerId, r.to, r.all));
      }
    }
  }
}
