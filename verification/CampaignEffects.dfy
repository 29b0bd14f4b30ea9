/** What each request of a campaign answers, and what an accepted one leaves. */
module CampaignEffects {
  import opened Seqs
  import opened Campaign
  import opened CampaignLaws
  import opened CampaignHistory

  predicate IsDM(c: Campaign, user: string) {
    UserAt(c.members, user) >= 0 && c.members[UserAt(c.members, user)].role == DM
  }

  predicate IsActive(c: Campaign, user: string) {
    UserAt(c.members, user) >= 0 && c.members[UserAt(c.members, user)].active
  }

  predicate SessionIs(c: Campaign, i: int, id: Id) {
    0 <= i < |c.sessions| && c.sessions[i].id == id
  }

  ghost predicate Exists(c: Campaign, id: Id) {
    exists i :: SessionIs(c, i, id)
  }

  ghost predicate Scheduled(c: Campaign, id: Id) {
    exists i :: SessionIs(c, i, id) && c.sessions[i].schedule.Some?
  }

  lemma FoundSession(env: Env, c: Campaign, id: Id) returns (i: int)
    requires Inv(env, c)
    ensures i == SessionAt(c.sessions, id)
    ensures Exists(c, id) <==> i >= 0
    ensures forall k :: SessionIs(c, k, id) <==> i >= 0 && k == i
    ensures Scheduled(c, id) <==> ScheduleOf(c, id).Some?
  {
    i := SessionAt(c.sessions, id);
    if i >= 0 { assert SessionIs(c, i, id); }
  }

  /** Outsiders see no campaign; availability and notes are for active members, everything else is for the
      DM. A refusal changes nothing, a change is stamped. */
  lemma GatesAre(env: Env, now: int, c: Campaign, user: string, r: Request)
    ensures var ((d, reply), at) := (Handle(env, now, c, user, r), UserAt(c.members, user));
      && (at < 0 ==> reply == NotFound)
      && (reply == Forbidden <==>
            at >= 0 && if r.PutAvailability? || r.DropAvailability? || r.PutNote? then !IsActive(c, user) else !IsDM(c, user))
      && (reply != Done ==> d == c)
      && (d != c ==> d.updatedAt == now)
  {
    hide Trim, ByteLength, Pruned, Dropped, DatesOk, SlotOk, WithoutSession, StripNotes, Upsert;
  }

  // ---------------------------------------------------------------- members

  predicate PlayerIs(c: Campaign, i: int, player: Id) {
    0 <= i < |c.members| && c.members[i].playerId == player
  }

  /** Every other member is as before. */
  predicate OnlyMember(c: Campaign, d: Campaign, i: int) {
    |d.members| == |c.members| && d.next == c.next
    && forall k :: 0 <= k < |c.members| && k != i ==> d.members[k] == c.members[k]
  }

  /** Archiving and bringing back works for players, not for the DM, and sets the flag of that player and
      nothing else of any member; bringing back leaves the sessions alone. */
  lemma SetActiveIsStored(env: Env, now: int, c: Campaign, user: string, target: Id, active: bool, i: int)
    requires Inv(env, c) && IsDM(c, user)
    ensures var (d, reply) := Handle(env, now, c, user, SetActive(target, active));
      && (reply == NotFound <==> forall k :: !PlayerIs(c, k, target))
      && (PlayerIs(c, i, target) ==> reply == if c.members[i].role == Player then Done else BadRequest)
      && (PlayerIs(c, i, target) && reply == Done ==>
            && OnlyMember(c, d, i) && d.members[i].active == active
            && d.members[i] == c.members[i].(active := d.members[i].active)
            && (active ==> d.sessions == c.sessions))
  {
    hide Pruned, SchedulesOk, NotesOk;
    var k := PlayerAt(c.members, target);
    if k >= 0 { assert PlayerIs(c, k, target); }
  }

  /** The DM adds an existing user as an active player with a new id and no notes. */
  lemma MemberIsAdded(env: Env, now: int, c: Campaign, user: string, linkedUser: Option<string>)
    requires IsDM(c, user)
    ensures var (d, reply) := Handle(env, now, c, user, AddMember(linkedUser));
      && reply == (if linkedUser.Some? then Done else NotFound)
      && (reply == Done ==>
            && d.sessions == c.sessions && |d.members| == |c.members| + 1 && d.members[..|c.members|] == c.members
            && var m := d.members[|c.members|];
            && m.userId == linkedUser.value && m.playerId == c.next < d.next
            && m.role == Player && m.active && m.notes == map[])
  {
  }

  /** The creator of a campaign, and nobody else, is on it, as its active DM. */
  lemma CreatorIsTheDM(user: string, now: int, other: string)
    ensures var c := Created(user, now);
      && (IsDM(c, other) <==> other == user) && (UserAt(c.members, other) >= 0 <==> other == user) && IsActive(c, user)
      && c.members[0].notes == map[] && c.sessions == [] && c.updatedAt == now
  {
    assert Created(user, now).members[0].userId == user;
  }

  /** As long as nobody brings an archived player back, through any run, that player's availability and
      notes are refused. */
  lemma {:induction false} ArchivedMayNotWrite(env: Env, c: Campaign, run: seq<Event>, now: int, user: string, r: Request)
    requires UserAt(c.members, user) >= 0 && !IsActive(c, user)
    requires var player := c.members[UserAt(c.members, user)].playerId;
      forall k :: 0 <= k < |run| ==> run[k].request != SetActive(player, true)
    requires r.PutAvailability? || r.DropAvailability? || r.PutNote?
    ensures var d := Exec(env, c, run);
      && UserAt(d.members, user) == UserAt(c.members, user) && |d.members| >= |c.members|
      && d.members[UserAt(d.members, user)].playerId == c.members[UserAt(c.members, user)].playerId
      && !IsActive(d, user) && Handle(env, now, d, user, r) == (d, Forbidden)
  {
    hide Handle, Effect;
    if run != [] {
      ArchivedMayNotWrite(env, c, Init(run), now, user, r);
      var d, e := Exec(env, c, Init(run)), Last(run);
      MembersStay(env, e.now, d, e.user, e.request);
      var after := Exec(env, c, run);
      assert run[|run| - 1] == e;
      FirstStays(d.members, after.members, user);
    }
    GatesAre(env, now, Exec(env, c, run), user, r);
  }

  lemma FirstStays(a: seq<Member>, b: seq<Member>, user: string)
    requires |b| >= |a| && UserAt(a, user) >= 0 && forall i :: 0 <= i < |a| ==> b[i].userId == a[i].userId
    ensures UserAt(b, user) == UserAt(a, user)
  {
    var i, j := UserAt(a, user), UserAt(b, user);
    assert b[i].userId == user;
    assert j >= 0 && j <= i;
    assert a[j].userId == user;
  }

  // ---------------------------------------------------------------- sessions

  /** A new session needs a title; it is last, with a new id and no schedule. */
  lemma SessionIsAdded(env: Env, now: int, c: Campaign, user: string, title: string, about: string)
    requires IsDM(c, user)
    ensures var (d, reply) := Handle(env, now, c, user, NewSession(title, about));
      && reply == (if title != "" then Done else BadRequest)
      && (reply == Done ==>
            && d.members == c.members && |d.sessions| == |c.sessions| + 1 && d.sessions[..|c.sessions|] == c.sessions
            && var s := d.sessions[|c.sessions|];
            && s.id == c.next < d.next && s.name == title && s.description == about && s.schedule == None)
  {
  }

  /** Every other session, and all members, are as before. */
  predicate OnlySession(c: Campaign, d: Campaign, i: int) {
    && |d.sessions| == |c.sessions| && d.members == c.members && d.next == c.next
    && 0 <= i < |c.sessions| && d.sessions[i].id == c.sessions[i].id
    && forall k :: 0 <= k < |c.sessions| && k != i ==> d.sessions[k] == c.sessions[k]
  }

  /** An edit changes what it names of an existing session. */
  lemma SessionIsEdited(env: Env, now: int, c: Campaign, user: string, session: Id, name: Option<string>, description: Option<string>, i: int)
    requires Inv(env, c) && IsDM(c, user)
    ensures var (d, reply) := Handle(env, now, c, user, EditSession(session, name, description));
      && (reply == BadRequest <==> name == None && description == None)
      && (reply == Done <==> (name.Some? || description.Some?) && Exists(c, session))
      && (reply == Done && SessionIs(c, i, session) ==>
            && OnlySession(c, d, i) && d.sessions[i].schedule == c.sessions[i].schedule
            && d.sessions[i].name == (if name.Some? then name.value else c.sessions[i].name)
            && d.sessions[i].description == (if description.Some? then description.value else c.sessions[i].description))
  {
    var k := FoundSession(env, c, session);
    hide Inv;
  }

  lemma {:induction false} WithoutIsKeep(sessions: seq<Session>, id: Id, others: set<Session>)
    requires forall s :: s in sessions ==> (s in others <==> s.id != id)
    ensures WithoutSession(sessions, id) == Keep(sessions, others)
  {
    if sessions != [] {
      assert sessions == Init(sessions) + [Last(sessions)];
      WithoutIsKeep(Init(sessions), id, others);
    }
  }

  /** A deletion that is reported as done leaves the other sessions, in order, and takes every member's note
      on the session with it, nothing else. */
  lemma SessionIsRemoved(env: Env, now: int, c: Campaign, user: string, session: Id)
    requires IsDM(c, user) && Handle(env, now, c, user, RemoveSession(session)).1 == Done
    ensures var d := Handle(env, now, c, user, RemoveSession(session)).0;
      var others := set s | s in c.sessions && s.id != session;
      && d.sessions == Keep(c.sessions, others) && |d.members| == |c.members| && d.next == c.next
      && forall i :: 0 <= i < |c.members| ==>
           && d.members[i] == c.members[i].(notes := d.members[i].notes) && session !in d.members[i].notes
           && forall n :: n != session ==>
                (n in d.members[i].notes <==> n in c.members[i].notes)
                && (n in c.members[i].notes ==> d.members[i].notes[n] == c.members[i].notes[n])
  {
    WithoutIsKeep(c.sessions, session, set s | s in c.sessions && s.id != session);
    hide WithoutSession;
  }

  // ---------------------------------------------------------------- schedules

  /** A request on a schedule touches the schedule of its session only. */
  lemma OnlyTheScheduleChanges(env: Env, now: int, c: Campaign, user: string, r: Request, i: int)
    requires Inv(env, c) && (r.PutAvailability? || r.DropAvailability? || r.PutSlot? || r.DropSlot?)
    requires Handle(env, now, c, user, r).1 == Done && SessionIs(c, i, r.session)
    ensures var d := Handle(env, now, c, user, r).0;
      OnlySession(c, d, i) && d.sessions[i] == c.sessions[i].(schedule := d.sessions[i].schedule)
    ensures r.DropAvailability? || r.DropSlot? ==>
      (c.sessions[i].schedule == None ==> Handle(env, now, c, user, r).0 == c)
  {
    var k := FoundSession(env, c, r.session);
    hide Inv, Upsert, Dropped, DatesOk, SlotOk;
  }

  predicate ZoneOk(env: Env, zone: string) {
    zone == "" || env.isZone(zone)
  }

  /** Why an active member's availability is refused. */
  lemma AvailabilityAnswers(env: Env, now: int, c: Campaign, user: string, r: Request)
    requires Inv(env, c) && IsActive(c, user) && r.PutAvailability?
    ensures var reply := Handle(env, now, c, user, r).1;
      var proper := (forall day :: day in r.byDate ==> env.isDate(day)) && ZoneOk(env, r.zone);
      var opening := !Scheduled(c, r.session);
      && (reply == BadRequest <==> !proper || (IsDM(c, user) && opening && r.zone == ""))
      && (reply == NotFound <==> proper && !Exists(c, r.session) && (IsDM(c, user) ==> r.zone != ""))
      && (reply == NotInitialized <==> proper && Exists(c, r.session) && opening && !IsDM(c, user))
      && (reply == Locked <==>
            proper && exists i :: SessionIs(c, i, r.session) && c.sessions[i].schedule.Some? && c.sessions[i].schedule.value.confirmed.Some?)
  {
    var k := FoundSession(env, c, r.session);
    hide Inv, Upsert, Exists, Scheduled;
    if k >= 0 { assert SessionIs(c, k, r.session); }
  }

  /** An active member can withdraw from any existing session. */
  lemma WithdrawalAnswers(env: Env, now: int, c: Campaign, user: string, session: Id)
    requires Inv(env, c) && IsActive(c, user)
    ensures Handle(env, now, c, user, DropAvailability(session)).1 == if Exists(c, session) then Done else NotFound
  {
    var k := FoundSession(env, c, session);
    hide Inv;
  }

  /** What a confirmed slot must look like. */
  predicate ProperSlot(env: Env, s: Slot) {
    && env.isDate(s.date) && (s.dayPart == "morning" || s.dayPart == "noon" || s.dayPart == "evening")
    && (s.startAt.Some? ==> env.isInstant(s.startAt.value)) && (s.duration.Some? ==> s.duration.value >= 1)
  }

  /** The DM confirms proper slots of existing sessions, opening the schedule by naming a zone, and clears
      those of existing sessions. */
  lemma SlotAnswers(env: Env, now: int, c: Campaign, user: string, r: Request)
    requires Inv(env, c) && IsDM(c, user) && (r.PutSlot? || r.DropSlot?)
    ensures var reply := Handle(env, now, c, user, r).1;
      var proper := r.PutSlot? ==>
        ProperSlot(env, r.slot) && ZoneOk(env, r.zone) && (Scheduled(c, r.session) || r.zone != "");
      reply == if !proper then BadRequest else if Exists(c, r.session) then Done else NotFound
  {
    var k := FoundSession(env, c, r.session);
    hide Inv, Exists, Scheduled;
  }

  // ---------------------------------------------------------------- notes

  /** A note is accepted from an active member on an existing session, up to ten thousand bytes of UTF-8. */
  lemma NoteAnswers(env: Env, now: int, c: Campaign, user: string, r: Request)
    requires Inv(env, c) && IsActive(c, user) && r.PutNote?
    ensures Handle(env, now, c, user, r).1 ==
      if !Exists(c, r.session) then NotFound else if ByteLength(r.text) > 10_000 then BadRequest else Done
    ensures var ((d, reply), at) := (Handle(env, now, c, user, r), UserAt(c.members, user));
      reply == Done ==> OnlyMember(c, d, at) && d.members[at] == c.members[at].(notes := d.members[at].notes)
  {
    hide Trim, ByteLength;
    var k := FoundSession(env, c, r.session);
    hide Inv;
  }

  /** UTF-8 (RFC 3629, section 3) takes one byte up to U+007F, two up to U+07FF and three up to U+FFFF. */
  lemma BytesOfOne(ch: char)
    ensures ByteLength([ch]) <= 1 <==> ch <= '\U{7F}'
    ensures ByteLength([ch]) <= 2 <==> ch <= '\U{7FF}'
    ensures ByteLength([ch]) <= 3 <==> ch <= '\U{FFFF}'
    ensures 1 <= ByteLength([ch]) <= 4
  {
    assert Init([ch]) == [];
  }

  /** Bytes add up, and a character takes one to four of them. */
  lemma {:induction false} BytesAddUp(s: string, t: string)
    ensures ByteLength(s + t) == ByteLength(s) + ByteLength(t) && |t| <= ByteLength(t) <= 4 * |t|
    ensures (forall i :: 0 <= i < |t| ==> t[i] as int < 128) <==> ByteLength(t) == |t|
  {
    if t == [] {
      assert s + t == s;
    } else {
      assert Init(s + t) == s + Init(t);
      BytesAddUp(s, Init(t));
      assert t == Init(t) + [Last(t)];
      assert forall i :: 0 <= i < |Init(t)| ==> t[i] == Init(t)[i];
    }
  }
}
