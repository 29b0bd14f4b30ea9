/** What every run of campaign requests keeps. */
module CampaignLaws {
  import opened Seqs
  import opened Campaign

  predicate ActivePlayer(members: seq<Member>, player: Id) {
    exists i :: 0 <= i < |members| && members[i].playerId == player && members[i].active
  }

  /** The creator, at the head, is the one DM and active. */
  predicate OneActiveDM(members: seq<Member>) {
    && members != [] && members[0].role == DM && members[0].active
    && forall i :: 1 <= i < |members| ==> members[i].role == Player
  }

  predicate PlayersDistinct(c: Campaign) {
    && (forall i :: 0 <= i < |c.members| ==> c.members[i].playerId < c.next)
    && (forall i, j :: 0 <= i < j < |c.members| ==> c.members[i].playerId != c.members[j].playerId)
  }

  predicate DistinctIds(sessions: seq<Session>) {
    forall i, j :: 0 <= i < j < |sessions| ==> sessions[i].id != sessions[j].id
  }

  predicate SessionsDistinct(c: Campaign) {
    (forall i :: 0 <= i < |c.sessions| ==> c.sessions[i].id < c.next) && DistinctIds(c.sessions)
  }

  predicate OncePerPlayer(entries: seq<Availability>) {
    forall i, j :: 0 <= i < j < |entries| ==> entries[i].playerId != entries[j].playerId
  }

  /** At most one entry per player, each of an active member. */
  predicate EntriesOk(env: Env, members: seq<Member>, entries: seq<Availability>) {
    && OncePerPlayer(entries)
    && (forall e :: e in entries ==> ActivePlayer(members, e.playerId) && DatesOk(env, e.byDate))
  }

  predicate ScheduleOk(env: Env, members: seq<Member>, sc: Schedule) {
    && sc.timezone != "" && env.isZone(sc.timezone)
    && EntriesOk(env, members, sc.entries)
    && (sc.confirmed.Some? ==> SlotOk(env, sc.confirmed.value))
  }

  predicate SchedulesOk(env: Env, c: Campaign) {
    forall s :: s in c.sessions && s.schedule.Some? ==> ScheduleOk(env, c.members, s.schedule.value)
  }

  predicate HasSession(sessions: seq<Session>, id: Id) {
    exists i :: 0 <= i < |sessions| && sessions[i].id == id
  }

  /** Notes are kept about existing sessions only, non-empty and with a proper direction. */
  predicate MemberNotesOk(sessions: seq<Session>, notes: map<Id, Note>) {
    forall k :: k in notes ==>
      HasSession(sessions, k) && notes[k].text != "" && (notes[k].direction == "ltr" || notes[k].direction == "rtl")
  }

  predicate NotesOk(c: Campaign) {
    forall i :: 0 <= i < |c.members| ==> MemberNotesOk(c.sessions, c.members[i].notes)
  }

  predicate Inv(env: Env, c: Campaign) {
    && OneActiveDM(c.members) && PlayersDistinct(c) && SessionsDistinct(c)
    && SchedulesOk(env, c) && NotesOk(c)
  }

  // ---------------------------------------------------------------- pieces

  lemma {:induction false} DroppedElems(entries: seq<Availability>, player: Id)
    ensures forall e :: e in Dropped(entries, player) <==> e in entries && e.playerId != player
  {
    if entries != [] {
      assert entries == Init(entries) + [Last(entries)];
      DroppedElems(Init(entries), player);
    }
  }

  lemma {:induction false} DroppedOnce(entries: seq<Availability>, player: Id)
    requires OncePerPlayer(entries)
    ensures OncePerPlayer(Dropped(entries, player))
  {
    if entries != [] {
      assert OncePerPlayer(Init(entries));
      DroppedOnce(Init(entries), player);
      DroppedElems(Init(entries), player);
      var before, last := Dropped(Init(entries), player), Last(entries);
      forall i | 0 <= i < |before| ensures before[i].playerId != last.playerId {
        assert before[i] in Init(entries);
        var k :| 0 <= k < |Init(entries)| && entries[k] == before[i];
      }
      assert OncePerPlayer(before + [last]);
    }
  }

  lemma DroppedOnlyRemoves(entries: seq<Availability>, player: Id)
    ensures var r := Dropped(entries, player);
      && (forall e :: e in r <==> e in entries && e.playerId != player)
      && (OncePerPlayer(entries) ==> OncePerPlayer(r))
  {
    DroppedElems(entries, player);
    if OncePerPlayer(entries) {
      DroppedOnce(entries, player);
    }
  }

  lemma DroppedOk(env: Env, members: seq<Member>, entries: seq<Availability>, player: Id)
    requires EntriesOk(env, members, entries)
    ensures EntriesOk(env, members, Dropped(entries, player))
  {
    DroppedOnlyRemoves(entries, player);
  }

  /** Once a player's entries are gone, the player may be archived. */
  lemma PrunedOk(env: Env, members: seq<Member>, i: nat, active: bool, entries: seq<Availability>)
    requires i < |members| && EntriesOk(env, members, entries)
    requires forall a, b :: 0 <= a < b < |members| ==> members[a].playerId != members[b].playerId
    ensures EntriesOk(env, members[i := members[i].(active := active)], Dropped(entries, members[i].playerId))
  {
    var after := members[i := members[i].(active := active)];
    DroppedOnlyRemoves(entries, members[i].playerId);
    forall e | e in Dropped(entries, members[i].playerId) ensures ActivePlayer(after, e.playerId) {
      var k :| 0 <= k < |members| && members[k].playerId == e.playerId && members[k].active;
      assert after[k] == members[k];
    }
  }

  lemma UpsertOk(env: Env, members: seq<Member>, entries: seq<Availability>, e: Availability)
    requires EntriesOk(env, members, entries) && ActivePlayer(members, e.playerId) && DatesOk(env, e.byDate)
    ensures EntriesOk(env, members, Upsert(entries, e))
  {
    var r, at := Upsert(entries, e), EntryAt(entries, e.playerId);
    forall x | x in r ensures ActivePlayer(members, x.playerId) && DatesOk(env, x.byDate) {
      assert x in entries || x == e;
    }
  }

  lemma MoreMembersOk(env: Env, members: seq<Member>, more: seq<Member>, sc: Schedule)
    requires ScheduleOk(env, members, sc)
    requires |more| >= |members|
    requires forall i :: 0 <= i < |members| ==> more[i].playerId == members[i].playerId && (members[i].active ==> more[i].active)
    ensures ScheduleOk(env, more, sc)
  {
    forall e | e in sc.entries ensures ActivePlayer(more, e.playerId) {
      var i :| 0 <= i < |members| && members[i].playerId == e.playerId && members[i].active;
      assert more[i].playerId == e.playerId && more[i].active;
    }
  }

  lemma {:induction false} WithoutSessionDistinct(sessions: seq<Session>, id: Id)
    requires DistinctIds(sessions)
    ensures DistinctIds(WithoutSession(sessions, id))
  {
    if sessions != [] {
      var r, last := WithoutSession(Init(sessions), id), Last(sessions);
      WithoutSessionDistinct(Init(sessions), id);
      forall i | 0 <= i < |r| ensures r[i].id != last.id {
        assert r[i] in Init(sessions);
        var k :| 0 <= k < |Init(sessions)| && Init(sessions)[k] == r[i];
        assert sessions[k] == r[i] && sessions[|sessions| - 1] == last;
      }
      assert DistinctIds(r + [last]);
    }
  }

  // ---------------------------------------------------------------- every request

  lemma SetScheduleKeepsInv(env: Env, c: Campaign, i: nat, sc: Schedule)
    requires Inv(env, c) && i < |c.sessions| && ScheduleOk(env, c.members, sc)
    ensures Inv(env, SetSchedule(c, i, sc))
  {
    hide ScheduleOk;
    var d := SetSchedule(c, i, sc);
    SameSessionIds(c, d);
    forall s | s in d.sessions && s.schedule.Some? ensures ScheduleOk(env, d.members, s.schedule.value) {
      assert s in c.sessions || s == d.sessions[i];
    }
  }

  /** Notes stay proper as long as the sessions they are about stay. */
  lemma NotesStayOk(sessions: seq<Session>, more: seq<Session>, notes: map<Id, Note>)
    requires MemberNotesOk(sessions, notes)
    requires forall i :: 0 <= i < |sessions| && sessions[i].id in notes ==> HasSession(more, sessions[i].id)
    ensures MemberNotesOk(more, notes)
  {
    forall k | k in notes ensures HasSession(more, k) {
      var i :| 0 <= i < |sessions| && sessions[i].id == k;
    }
  }

  lemma SameSessionIds(c: Campaign, d: Campaign)
    requires NotesOk(c) && d.members == c.members && |d.sessions| >= |c.sessions|
    requires forall i :: 0 <= i < |c.sessions| ==> d.sessions[i].id == c.sessions[i].id
    ensures NotesOk(d)
  {
    forall i | 0 <= i < |c.sessions| ensures HasSession(d.sessions, c.sessions[i].id) {
      assert d.sessions[i].id == c.sessions[i].id;
    }
    forall i | 0 <= i < |d.members| ensures MemberNotesOk(d.sessions, d.members[i].notes) {
      NotesStayOk(c.sessions, d.sessions, d.members[i].notes);
    }
  }

  lemma AddMemberKeepsInv(env: Env, c: Campaign, user: string)
    requires Inv(env, c)
    ensures var d := c.(members := c.members + [Member(user, c.next, Player, true, map[])], next := c.next + 1);
      Inv(env, d)
  {
    var d := c.(members := c.members + [Member(user, c.next, Player, true, map[])], next := c.next + 1);
    forall s | s in d.sessions && s.schedule.Some? ensures ScheduleOk(env, d.members, s.schedule.value) {
      MoreMembersOk(env, c.members, d.members, s.schedule.value);
    }
  }

  lemma RestoreKeepsInv(env: Env, c: Campaign, i: nat)
    requires Inv(env, c) && i < |c.members|
    ensures Inv(env, c.(members := c.members[i := c.members[i].(active := true)]))
  {
    var d := c.(members := c.members[i := c.members[i].(active := true)]);
    forall s | s in d.sessions && s.schedule.Some? ensures ScheduleOk(env, d.members, s.schedule.value) {
      MoreMembersOk(env, c.members, d.members, s.schedule.value);
    }
  }

  lemma ArchiveKeepsSchedules(env: Env, c: Campaign, i: nat)
    requires SchedulesOk(env, c) && PlayersDistinct(c) && i < |c.members|
    ensures var m := c.members[i];
      SchedulesOk(env, c.(members := c.members[i := m.(active := false)], sessions := Pruned(c.sessions, m.playerId)))
  {
    hide EntriesOk;
    var p := c.members[i].playerId;
    var d := c.(members := c.members[i := c.members[i].(active := false)], sessions := Pruned(c.sessions, p));
    forall s | s in d.sessions && s.schedule.Some? ensures ScheduleOk(env, d.members, s.schedule.value) {
      var k :| 0 <= k < |d.sessions| && d.sessions[k] == s;
      assert c.sessions[k] in c.sessions;
      PrunedOk(env, c.members, i, false, c.sessions[k].schedule.value.entries);
    }
  }

  lemma ArchiveKeepsInv(env: Env, c: Campaign, i: nat)
    requires Inv(env, c) && i < |c.members| && c.members[i].role != DM
    ensures var m := c.members[i];
      Inv(env, c.(members := c.members[i := m.(active := false)], sessions := Pruned(c.sessions, m.playerId)))
  {
    ArchiveKeepsSchedules(env, c, i);
    hide SchedulesOk, MemberNotesOk;
    var archived := c.(sessions := Pruned(c.sessions, c.members[i].playerId));
    SameSessionIds(c, archived);
  }

  lemma NewSessionKeepsInv(env: Env, c: Campaign, title: string, about: string)
    requires Inv(env, c)
    ensures Inv(env, c.(sessions := c.sessions + [Session(c.next, title, about, None)], next := c.next + 1))
  {
    hide ScheduleOk;
    var d := c.(sessions := c.sessions + [Session(c.next, title, about, None)], next := c.next + 1);
    SameSessionIds(c, d);
  }

  lemma EditSessionKeepsInv(env: Env, c: Campaign, i: nat, name: string, description: string)
    requires Inv(env, c) && i < |c.sessions|
    ensures Inv(env, c.(sessions := c.sessions[i := c.sessions[i].(name := name, description := description)]))
  {
    hide ScheduleOk;
    var d := c.(sessions := c.sessions[i := c.sessions[i].(name := name, description := description)]);
    SameSessionIds(c, d);
    forall s | s in d.sessions && s.schedule.Some? ensures ScheduleOk(env, d.members, s.schedule.value) {
      assert s in c.sessions || (s == d.sessions[i] && c.sessions[i] in c.sessions);
    }
  }

  lemma RemoveSessionKeepsInv(env: Env, c: Campaign, id: Id)
    requires Inv(env, c)
    ensures Inv(env, c.(sessions := WithoutSession(c.sessions, id), members := StripNotes(c.members, id)))
  {
    var d := c.(sessions := WithoutSession(c.sessions, id), members := StripNotes(c.members, id));
    WithoutSessionDistinct(c.sessions, id);
    forall i | 0 <= i < |d.sessions| ensures d.sessions[i].id < d.next { assert d.sessions[i] in c.sessions; }
    forall s | s in d.sessions && s.schedule.Some? ensures ScheduleOk(env, d.members, s.schedule.value) {
      MoreMembersOk(env, c.members, d.members, s.schedule.value);
    }
    StrippedNotesOk(c, id);
  }

  lemma StrippedNotesOk(c: Campaign, id: Id)
    requires NotesOk(c)
    ensures NotesOk(c.(sessions := WithoutSession(c.sessions, id), members := StripNotes(c.members, id)))
  {
    var d := c.(sessions := WithoutSession(c.sessions, id), members := StripNotes(c.members, id));
    forall i | 0 <= i < |c.sessions| && c.sessions[i].id != id ensures HasSession(d.sessions, c.sessions[i].id) {
      assert c.sessions[i] in d.sessions;
    }
    forall i | 0 <= i < |d.members| ensures MemberNotesOk(d.sessions, d.members[i].notes) {
      assert MemberNotesOk(c.sessions, c.members[i].notes);
      assert MemberNotesOk(c.sessions, c.members[i].notes - {id});
      NotesStayOk(c.sessions, d.sessions, c.members[i].notes - {id});
    }
  }

  lemma NotesKeepInv(env: Env, c: Campaign, i: nat, session: Id, text: string, direction: string)
    requires Inv(env, c) && i < |c.members| && SessionAt(c.sessions, session) >= 0
    ensures var m := c.members[i];
      var notes := if Trim(text) == "" then m.notes - {session} else m.notes[session := Note(Trim(text), Direction(direction))];
      Inv(env, c.(members := c.members[i := m.(notes := notes)]))
  {
    hide Trim;
    var m := c.members[i];
    var notes := if Trim(text) == "" then m.notes - {session} else m.notes[session := Note(Trim(text), Direction(direction))];
    var d := c.(members := c.members[i := m.(notes := notes)]);
    forall s | s in d.sessions && s.schedule.Some? ensures ScheduleOk(env, d.members, s.schedule.value) {
      MoreMembersOk(env, c.members, d.members, s.schedule.value);
    }
    assert HasSession(c.sessions, session) by { assert c.sessions[SessionAt(c.sessions, session)].id == session; }
    assert MemberNotesOk(c.sessions, m.notes);
    hide ScheduleOk, HasSession;
  }

  lemma ScheduleIsOk(env: Env, c: Campaign, i: nat)
    requires Inv(env, c) && i < |c.sessions| && c.sessions[i].schedule.Some?
    ensures ScheduleOk(env, c.members, c.sessions[i].schedule.value)
  {
    assert c.sessions[i] in c.sessions;
  }

  lemma PutAvailabilityKeepsInv(env: Env, c: Campaign, user: string, r: Request)
    requires Inv(env, c) && r.PutAvailability?
    ensures Inv(env, Effect(env, c, user, r).0)
  {
    var at, i := UserAt(c.members, user), SessionAt(c.sessions, r.session);
    if Effect(env, c, user, r).1.Done? {
      var sc := c.sessions[i].schedule.GetOr(Schedule(r.zone, [], None));
      if c.sessions[i].schedule.Some? { ScheduleIsOk(env, c, i); }
      var e := Availability(c.members[at].playerId, r.byDate);
      assert ActivePlayer(c.members, e.playerId);
      UpsertOk(env, c.members, sc.entries, e);
      SetScheduleKeepsInv(env, c, i, sc.(entries := Upsert(sc.entries, e)));
      hide Inv, ScheduleOk;
    }
  }

  lemma ScheduleRequestsKeepInv(env: Env, c: Campaign, user: string, r: Request)
    requires Inv(env, c) && (r.DropAvailability? || r.PutSlot? || r.DropSlot?)
    ensures Inv(env, Effect(env, c, user, r).0)
  {
    var at, i := UserAt(c.members, user), SessionAt(c.sessions, r.session);
    if Effect(env, c, user, r).0 != c {
      if c.sessions[i].schedule.Some? { ScheduleIsOk(env, c, i); }
      var sc := c.sessions[i].schedule.GetOr(Schedule(if r.PutSlot? then r.zone else "", [], None));
      var next := if r.DropAvailability? then sc.(entries := Dropped(sc.entries, c.members[at].playerId))
                  else if r.PutSlot? then sc.(confirmed := Some(r.slot)) else sc.(confirmed := None);
      if r.DropAvailability? { DroppedOk(env, c.members, sc.entries, c.members[at].playerId); }
      SetScheduleKeepsInv(env, c, i, next);
      hide Inv, EntriesOk;
    }
  }

  lemma EffectKeepsInv(env: Env, c: Campaign, user: string, r: Request)
    requires Inv(env, c)
    ensures Inv(env, Effect(env, c, user, r).0)
  {
    hide Inv, Pruned, StripNotes, WithoutSession, Trim, ByteLength;
    if Effect(env, c, user, r).0 != c {
      match r
      case AddMember(linkedUser) => AddMemberKeepsInv(env, c, linkedUser.value);
      case SetActive(target, active) =>
        var i := PlayerAt(c.members, target);
        if active { RestoreKeepsInv(env, c, i); } else { ArchiveKeepsInv(env, c, i); }
      case NewSession(title, about) => NewSessionKeepsInv(env, c, title, about);
      case EditSession(session, name, description) =>
        var i := SessionAt(c.sessions, session);
        EditSessionKeepsInv(env, c, i, name.GetOr(c.sessions[i].name), description.GetOr(c.sessions[i].description));
      case RemoveSession(session) => RemoveSessionKeepsInv(env, c, session);
      case PutAvailability(_, _, _) => PutAvailabilityKeepsInv(env, c, user, r);
      case DropAvailability(_) => ScheduleRequestsKeepInv(env, c, user, r);
      case PutSlot(_, _, _) => ScheduleRequestsKeepInv(env, c, user, r);
      case DropSlot(_) => ScheduleRequestsKeepInv(env, c, user, r);
      case PutNote(session, text, direction) => NotesKeepInv(env, c, UserAt(c.members, user), session, text, direction);
    }
  }

  /** The aggregate's invariant survives every request of every user. */
  lemma HandleKeepsInv(env: Env, now: int, c: Campaign, user: string, r: Request)
    requires Inv(env, c)
    ensures Inv(env, Handle(env, now, c, user, r).0)
  {
    hide Effect, Writes, Pulled;
    EffectKeepsInv(env, c, user, r);
    var d := Effect(env, c, user, r).0;
    Restamped(env, d, now);
    hide Inv;
  }

  lemma Restamped(env: Env, c: Campaign, now: int)
    requires Inv(env, c)
    ensures Inv(env, c.(updatedAt := now))
  {
    hide ScheduleOk, MemberNotesOk;
  }

  datatype Event = Event(user: string, request: Request, now: int)

  function Exec(env: Env, c: Campaign, run: seq<Event>): Campaign {
    if run == [] then c else Handle(env, Last(run).now, Exec(env, c, Init(run)), Last(run).user, Last(run).request).0
  }

  lemma {:induction false} ExecKeepsInv(env: Env, c: Campaign, run: seq<Event>)
    requires Inv(env, c)
    ensures Inv(env, Exec(env, c, run))
  {
    hide Inv, Handle;
    if run != [] {
      ExecKeepsInv(env, c, Init(run));
      HandleKeepsInv(env, Last(run).now, Exec(env, c, Init(run)), Last(run).user, Last(run).request);
    }
  }

  /** Every campaign reachable from its creation satisfies the invariant. */
  lemma ReachableCampaignIsOk(env: Env, creator: string, now: int, run: seq<Event>)
    ensures Inv(env, Exec(env, Created(creator, now), run))
  {
    hide Handle;
    ExecKeepsInv(env, Created(creator, now), run);
  }
}
