/** How a campaign may change over time, and what single requests achieve. */
module CampaignHistory {
  import opened Seqs
  import opened Campaign
  import opened CampaignLaws

  // ---------------------------------------------------------------- schedules over time

  /** Entries may have been removed; none was added, altered or moved. */
  ghost predicate OnlyRemoved(before: seq<Availability>, after: seq<Availability>) {
    exists keep: set<Availability> :: after == Keep(before, keep)
  }

  ghost predicate SessionEvolves(s: Session, t: Session) {
    s.schedule.Some? ==>
      && t.schedule.Some? && t.schedule.value.timezone == s.schedule.value.timezone
      && (s.schedule.value.confirmed.Some? ==> OnlyRemoved(s.schedule.value.entries, t.schedule.value.entries))
  }

  /** Ids are not reused, and every session that is still there has evolved. */
  ghost predicate Evolves(c: Campaign, d: Campaign) {
    && c.next <= d.next
    && (forall t :: t in d.sessions && t.id < c.next ==> HasSession(c.sessions, t.id))
    && (forall s, t :: s in c.sessions && t in d.sessions && t.id == s.id ==> SessionEvolves(s, t))
  }

  lemma NothingRemoved(entries: seq<Availability>)
    ensures OnlyRemoved(entries, entries)
  {
    KeepAll(entries, Elems(entries));
  }

  lemma {:induction false} DroppedIsKeep(entries: seq<Availability>, player: Id)
    ensures Dropped(entries, player) == Keep(entries, Elems(Dropped(entries, player)))
  {
    if entries != [] {
      var r := Dropped(Init(entries), player);
      DroppedIsKeep(Init(entries), player);
      DroppedOnlyRemoves(entries, player);
      DroppedOnlyRemoves(Init(entries), player);
      KeepCong(Init(entries), Elems(r), Elems(Dropped(entries, player)));
      assert Last(entries) in entries;
    }
  }

  lemma RemovedTwice(a: seq<Availability>, b: seq<Availability>, c: seq<Availability>)
    requires OnlyRemoved(a, b) && OnlyRemoved(b, c)
    ensures OnlyRemoved(a, c)
  {
    var k: set<Availability> :| b == Keep(a, k);
    var l: set<Availability> :| c == Keep(b, l);
    KeepTwice(a, k, l);
  }

  lemma SessionStays(s: Session)
    ensures SessionEvolves(s, s)
  {
    if s.schedule.Some? { NothingRemoved(s.schedule.value.entries); }
  }

  lemma SessionPruned(s: Session, player: Id)
    ensures SessionEvolves(s, PrunedSession(s, player))
  {
    if s.schedule.Some? { DroppedIsKeep(s.schedule.value.entries, player); }
  }

  /** The sessions correspond position by position. */
  lemma SamePlaces(c: Campaign, d: Campaign)
    requires SessionsDistinct(c) && |d.sessions| == |c.sessions| && c.next <= d.next
    requires forall i :: 0 <= i < |c.sessions| ==> d.sessions[i].id == c.sessions[i].id
    requires forall i :: 0 <= i < |c.sessions| ==> SessionEvolves(c.sessions[i], d.sessions[i])
    ensures Evolves(c, d)
  {
    hide SessionEvolves;
    forall t | t in d.sessions && t.id < c.next ensures HasSession(c.sessions, t.id) {
      var i :| 0 <= i < |d.sessions| && d.sessions[i] == t;
      assert c.sessions[i].id == t.id;
    }
    forall s, t | s in c.sessions && t in d.sessions && t.id == s.id ensures SessionEvolves(s, t) {
      var i :| 0 <= i < |c.sessions| && c.sessions[i] == s;
      var j :| 0 <= j < |d.sessions| && d.sessions[j] == t;
      assert c.sessions[j].id == t.id;
    }
  }

  lemma OneSessionChanges(c: Campaign, d: Campaign, i: nat, s: Session)
    requires SessionsDistinct(c) && i < |c.sessions| && d.sessions == c.sessions[i := s] && c.next == d.next
    requires s.id == c.sessions[i].id && SessionEvolves(c.sessions[i], s)
    ensures Evolves(c, d)
  {
    forall k | 0 <= k < |c.sessions| ensures SessionEvolves(c.sessions[k], d.sessions[k]) { SessionStays(c.sessions[k]); }
    SamePlaces(c, d);
  }

  lemma SessionsUntouched(c: Campaign, d: Campaign)
    requires SessionsDistinct(c) && d.sessions == c.sessions && c.next <= d.next
    ensures Evolves(c, d)
  {
    forall k | 0 <= k < |c.sessions| ensures SessionEvolves(c.sessions[k], d.sessions[k]) { SessionStays(c.sessions[k]); }
    SamePlaces(c, d);
  }

  lemma SessionAdded(c: Campaign, d: Campaign, s: Session)
    requires SessionsDistinct(c) && d.sessions == c.sessions + [s] && s.id == c.next && c.next <= d.next
    ensures Evolves(c, d)
  {
    var same := d.(sessions := c.sessions);
    SessionsUntouched(c, same);
    hide SessionEvolves, HasSession;
    forall t | t in d.sessions ensures t in same.sessions || t.id == c.next {}
  }

  lemma SessionRemoved(c: Campaign, d: Campaign, id: Id)
    requires SessionsDistinct(c) && d.sessions == WithoutSession(c.sessions, id) && c.next <= d.next
    ensures Evolves(c, d)
  {
    var same := d.(sessions := c.sessions);
    SessionsUntouched(c, same);
    hide SessionEvolves, HasSession;
    assert forall t :: t in d.sessions ==> t in same.sessions;
  }

  lemma ScheduleChanges(s: Session, r: Request, player: Id)
    requires r.PutAvailability? ==> s.schedule.Some? ==> s.schedule.value.confirmed == None
    ensures var sc := s.schedule.GetOr(Schedule("", [], None));
      && SessionEvolves(s, s.(schedule := Some(sc.(entries := Dropped(sc.entries, player)))))
      && (forall slot :: SessionEvolves(s, s.(schedule := Some(sc.(confirmed := slot)))))
      && (r.PutAvailability? ==> forall entries :: SessionEvolves(s, s.(schedule := Some(sc.(entries := entries)))))
      && (s.schedule == None ==> forall t :: SessionEvolves(s, t))
  {
    if s.schedule.Some? {
      NothingRemoved(s.schedule.value.entries);
      DroppedIsKeep(s.schedule.value.entries, player);
    }
  }

  lemma ScheduleRequestEvolves(env: Env, c: Campaign, user: string, r: Request)
    requires Inv(env, c) && (r.PutAvailability? || r.DropAvailability? || r.PutSlot? || r.DropSlot?)
    ensures Evolves(c, Effect(env, c, user, r).0)
  {
    var d := Effect(env, c, user, r).0;
    hide SchedulesOk, NotesOk, Evolves, SessionEvolves;
    var i := SessionAt(c.sessions, r.session);
    if d != c {
      ScheduleChanges(c.sessions[i], r, c.members[UserAt(c.members, user)].playerId);
      OneSessionChanges(c, d, i, d.sessions[i]);
    } else {
      SessionsUntouched(c, d);
    }
  }

  lemma EffectEvolves(env: Env, c: Campaign, user: string, r: Request)
    requires Inv(env, c)
    ensures Evolves(c, Effect(env, c, user, r).0)
  {
    hide Evolves, SchedulesOk, NotesOk, Trim, ByteLength;
    var d := Effect(env, c, user, r).0;
    if d.sessions == c.sessions {
      SessionsUntouched(c, d);
    } else {
      match r
      case SetActive(target, active) =>
        forall k | 0 <= k < |c.sessions| ensures SessionEvolves(c.sessions[k], d.sessions[k]) {
          SessionPruned(c.sessions[k], target);
        }
        SamePlaces(c, d);
      case NewSession(title, about) => SessionAdded(c, d, Session(c.next, title, about, None));
      case EditSession(session, name, description) =>
        var i := SessionAt(c.sessions, session);
        SessionStays(c.sessions[i]);
        OneSessionChanges(c, d, i, d.sessions[i]);
      case RemoveSession(session) => SessionRemoved(c, d, session);
      case PutAvailability(_, _, _) => ScheduleRequestEvolves(env, c, user, r);
      case DropAvailability(_) => ScheduleRequestEvolves(env, c, user, r);
      case PutSlot(_, _, _) => ScheduleRequestEvolves(env, c, user, r);
      case DropSlot(_) => ScheduleRequestEvolves(env, c, user, r);
      case AddMember(_) =>
      case PutNote(_, _, _) =>
    }
  }

  /** Whatever a user requests: no session id is reused, no time zone changes, and where a slot is
      confirmed no availability is added or altered. */
  lemma HandleEvolves(env: Env, now: int, c: Campaign, user: string, r: Request)
    requires Inv(env, c)
    ensures Evolves(c, Handle(env, now, c, user, r).0)
  {
    hide SessionEvolves, HasSession, Effect, Writes, Pulled, Inv;
    EffectEvolves(env, c, user, r);
    SessionsUntouched(c, c) by { InvDistinct(env, c); }
  }

  lemma InvDistinct(env: Env, c: Campaign)
    requires Inv(env, c)
    ensures SessionsDistinct(c)
  {
  }

  /** The run version: a session's time zone never changes while the session exists. */
  lemma {:induction false} TimezoneNeverChanges(env: Env, c: Campaign, run: seq<Event>, s: Session, t: Session)
    requires Inv(env, c) && s in c.sessions && t in Exec(env, c, run).sessions && t.id == s.id
    ensures s.schedule.Some? ==> t.schedule.Some? && t.schedule.value.timezone == s.schedule.value.timezone
  {
    hide Inv, Handle, OnlyRemoved;
    if run == [] {
      SameIdSameSession(env, c, s, t);
    } else {
      var m := StillThere(env, c, run, s, t);
      TimezoneNeverChanges(env, c, Init(run), s, m);
    }
  }

  lemma SameIdSameSession(env: Env, c: Campaign, s: Session, t: Session)
    requires Inv(env, c) && s in c.sessions && t in c.sessions && t.id == s.id
    ensures s == t
  {
    var i :| 0 <= i < |c.sessions| && c.sessions[i] == s;
    var j :| 0 <= j < |c.sessions| && c.sessions[j] == t;
  }

  lemma {:induction false} NextGrows(env: Env, c: Campaign, run: seq<Event>)
    requires Inv(env, c)
    ensures c.next <= Exec(env, c, run).next
  {
    hide Inv, Handle;
    if run != [] {
      NextGrows(env, c, Init(run));
      ExecKeepsInv(env, c, Init(run));
      HandleEvolves(env, Last(run).now, Exec(env, c, Init(run)), Last(run).user, Last(run).request);
    }
  }

  /** A session present at both ends of a run was there before the last request, too. */
  lemma StillThere(env: Env, c: Campaign, run: seq<Event>, s: Session, t: Session) returns (m: Session)
    requires Inv(env, c) && run != [] && s in c.sessions && t in Exec(env, c, run).sessions && t.id == s.id
    ensures m in Exec(env, c, Init(run)).sessions && m.id == s.id && SessionEvolves(m, t)
  {
    hide Handle, SchedulesOk, NotesOk, SessionEvolves;
    var d := Exec(env, c, Init(run));
    NextGrows(env, c, Init(run));
    ExecKeepsInv(env, c, Init(run));
    HandleEvolves(env, Last(run).now, d, Last(run).user, Last(run).request);
    assert t.id < c.next by {
      var i :| 0 <= i < |c.sessions| && c.sessions[i] == s;
    }
    var k :| 0 <= k < |d.sessions| && d.sessions[k].id == t.id;
    m := d.sessions[k];
  }

  /** The slot of this session is confirmed, as long as the session exists. */
  predicate LockedIn(c: Campaign, id: Id) {
    forall s :: s in c.sessions && s.id == id ==> s.schedule.Some? && s.schedule.value.confirmed.Some?
  }

  /** While a slot stays confirmed, through any run, availability entries only disappear. */
  lemma {:induction false} LockedEntriesOnlyDisappear(env: Env, c: Campaign, run: seq<Event>, s: Session, t: Session)
    requires Inv(env, c) && s in c.sessions && t in Exec(env, c, run).sessions && t.id == s.id
    requires forall k :: 0 <= k <= |run| ==> LockedIn(Exec(env, c, run[..k]), s.id)
    ensures s.schedule.Some? && t.schedule.Some? && OnlyRemoved(s.schedule.value.entries, t.schedule.value.entries)
  {
    hide Inv, Handle, OnlyRemoved;
    assert run[..|run|] == run && run[..0] == [];
    assert LockedIn(Exec(env, c, run[..0]), s.id) && LockedIn(Exec(env, c, run[..|run|]), s.id);
    if run == [] {
      SameIdSameSession(env, c, s, t);
      NothingRemoved(s.schedule.value.entries);
    } else {
      var m := StillThere(env, c, run, s, t);
      forall k | 0 <= k <= |Init(run)| ensures LockedIn(Exec(env, c, Init(run)[..k]), s.id) {
        assert Init(run)[..k] == run[..k];
      }
      LockedEntriesOnlyDisappear(env, c, Init(run), s, m);
      assert Init(run) == run[..|run| - 1];
      assert LockedIn(Exec(env, c, run[..|run| - 1]), s.id);
      RemovedTwice(s.schedule.value.entries, m.schedule.value.entries, t.schedule.value.entries);
    }
  }

  // ---------------------------------------------------------------- single requests

  lemma SessionAtSame(a: seq<Session>, b: seq<Session>, id: Id)
    requires |a| == |b| && forall i :: 0 <= i < |a| ==> a[i].id == b[i].id
    ensures SessionAt(a, id) == SessionAt(b, id)
  {
    var i, j := SessionAt(a, id), SessionAt(b, id);
    assert i >= 0 ==> b[i].id == id;
    assert j >= 0 ==> a[j].id == id;
  }

  lemma UserAtSame(a: seq<Member>, b: seq<Member>, user: string)
    requires |a| == |b| && forall i :: 0 <= i < |a| ==> a[i].userId == b[i].userId
    ensures UserAt(a, user) == UserAt(b, user)
  {
    var i, j := UserAt(a, user), UserAt(b, user);
    assert i >= 0 ==> b[i].userId == user;
    assert j >= 0 ==> a[j].userId == user;
  }

  lemma SetScheduleReadBack(c: Campaign, i: nat, sc: Schedule, session: Id)
    requires i < |c.sessions| && SessionAt(c.sessions, session) == i
    ensures ScheduleOf(SetSchedule(c, i, sc), session) == Some(sc)
  {
    SessionAtSame(c.sessions, SetSchedule(c, i, sc).sessions, session);
  }

  /** An availability is accepted exactly from an active member, for valid dates and zone, on an existing
      session whose schedule is open, or that the DM opens by naming a time zone. Then it is the
      member's one entry and everybody else's entry is as before. */
  lemma AvailabilityIsStored(env: Env, now: int, c: Campaign, user: string, r: Request)
    requires Inv(env, c) && r.PutAvailability?
    ensures var (d, reply) := Handle(env, now, c, user, r);
      var at, i := UserAt(c.members, user), SessionAt(c.sessions, r.session);
      && (reply == Done <==>
            && at >= 0 && c.members[at].active && (forall day :: day in r.byDate ==> env.isDate(day)) && (r.zone == "" || env.isZone(r.zone))
            && i >= 0
            && (match c.sessions[i].schedule
                case Some(sc) => sc.confirmed == None
                case None => c.members[at].role == DM && r.zone != ""))
      && (reply != Done ==> d == c)
      && (reply == Done ==>
            && ScheduleOf(d, r.session).Some?
            && var before, after := ScheduleOf(c, r.session).GetOr(Schedule(r.zone, [], None)), ScheduleOf(d, r.session).value;
            && after.timezone == before.timezone && after.confirmed == None
            && forall e :: e in after.entries <==>
                 e == Availability(c.members[at].playerId, r.byDate) || (e in before.entries && e.playerId != c.members[at].playerId))
  {
    var (d, reply) := Handle(env, now, c, user, r);
    if reply == Done {
      var at, i := UserAt(c.members, user), SessionAt(c.sessions, r.session);
      var sc := c.sessions[i].schedule.GetOr(Schedule(r.zone, [], None));
      if c.sessions[i].schedule.Some? { ScheduleIsOk(env, c, i); }
      var e := Availability(c.members[at].playerId, r.byDate);
      UpsertIsUpdate(sc.entries, e);
      SetScheduleReadBack(c, i, sc.(entries := Upsert(sc.entries, e)), r.session);
    }
    hide Inv, Upsert, ScheduleOk;
  }

  lemma UpsertIsUpdate(entries: seq<Availability>, e: Availability)
    requires OncePerPlayer(entries)
    ensures forall x :: x in Upsert(entries, e) <==> x == e || (x in entries && x.playerId != e.playerId)
  {
    var r, at := Upsert(entries, e), EntryAt(entries, e.playerId);
    forall x | x == e || (x in entries && x.playerId != e.playerId) ensures x in r {
      if x == e {
        assert r[if at >= 0 then at else |entries|] == e;
      } else {
        var i :| 0 <= i < |entries| && entries[i] == x;
        assert r[i] == x;
      }
    }
  }

  /** Withdrawing works on locked schedules as well: the caller's entry goes, nothing else changes. */
  lemma WithdrawalIgnoresTheLock(env: Env, now: int, c: Campaign, user: string, session: Id)
    requires Inv(env, c) && UserAt(c.members, user) >= 0 && c.members[UserAt(c.members, user)].active
    requires ScheduleOf(c, session).Some?
    ensures var (d, reply) := Handle(env, now, c, user, DropAvailability(session));
      var before, player := ScheduleOf(c, session).value, c.members[UserAt(c.members, user)].playerId;
      && reply == Done && ScheduleOf(d, session).Some?
      && var after := ScheduleOf(d, session).value;
      && after.confirmed == before.confirmed && after.timezone == before.timezone
      && (forall e :: e in after.entries <==> e in before.entries && e.playerId != player)
  {
    hide Inv;
    var i, player := SessionAt(c.sessions, session), c.members[UserAt(c.members, user)].playerId;
    var sc := c.sessions[i].schedule.value;
    DroppedOnlyRemoves(sc.entries, player);
    SetScheduleReadBack(c, i, sc.(entries := Dropped(sc.entries, player)), session);
  }

  /** A confirmed slot is read back as it was put, and clearing it leaves none; availability and time
      zone stay. Only the DM gets that far. */
  lemma SlotReadsBack(env: Env, now: int, c: Campaign, user: string, r: Request)
    requires r.PutSlot? || (r.DropSlot? && ScheduleOf(c, r.session).Some?)
    requires Handle(env, now, c, user, r).1 == Done
    ensures c.members[UserAt(c.members, user)].role == DM && ScheduleOf(Handle(env, now, c, user, r).0, r.session).Some?
    ensures var after := ScheduleOf(Handle(env, now, c, user, r).0, r.session).value;
      var before := ScheduleOf(c, r.session).GetOr(Schedule(if r.PutSlot? then r.zone else "", [], None));
      && after.confirmed == (if r.PutSlot? then Some(r.slot) else None)
      && after.entries == before.entries && after.timezone == before.timezone
  {
    hide SlotOk;
    var i := SessionAt(c.sessions, r.session);
    var sc := c.sessions[i].schedule.GetOr(Schedule(if r.PutSlot? then r.zone else "", [], None));
    SetScheduleReadBack(c, i, sc.(confirmed := if r.PutSlot? then Some(r.slot) else None), r.session);
  }

  lemma {:induction false} DroppedKeepsOthers(entries: seq<Availability>, player: Id, others: set<Availability>)
    requires forall e :: e in entries ==> (e in others <==> e.playerId != player)
    ensures Dropped(entries, player) == Keep(entries, others)
  {
    if entries != [] {
      assert entries == Init(entries) + [Last(entries)];
      DroppedKeepsOthers(Init(entries), player, others);
    }
  }

  /** Archiving a player removes that player's availability everywhere and nobody else's; sessions without a
      schedule get none. */
  lemma ArchivingClearsAvailability(env: Env, now: int, c: Campaign, user: string, player: Id, i: nat)
    requires Handle(env, now, c, user, SetActive(player, false)).1 == Done && i < |c.sessions|
    ensures var d, s := Handle(env, now, c, user, SetActive(player, false)).0, c.sessions[i];
      && |d.sessions| == |c.sessions|
      && match s.schedule
         case None => d.sessions[i] == s
         case Some(sc) =>
           var others := set e | e in sc.entries && e.playerId != player;
           d.sessions[i] == s.(schedule := Some(sc.(entries := Keep(sc.entries, others))))
  {
    hide Pruned, Dropped;
    if c.sessions[i].schedule.Some? {
      var entries := c.sessions[i].schedule.value.entries;
      DroppedKeepsOthers(entries, player, set e | e in entries && e.playerId != player);
    }
  }

  /** A deletion reports a missing session as missing exactly if the last write to the campaign bears the
      present millisecond; at any other time it reports it as deleted. An existing session goes, and is
      always reported. */
  lemma MissingSessionIsDeletedToo(env: Env, now: int, c: Campaign, user: string, session: Id)
    requires Inv(env, c) && UserAt(c.members, user) >= 0 && c.members[UserAt(c.members, user)].role == DM
    ensures var (d, reply) := Handle(env, now, c, user, RemoveSession(session));
      && reply == (if SessionAt(c.sessions, session) < 0 && c.updatedAt == now then NotFound else Done)
      && (SessionAt(c.sessions, session) < 0 ==> d == c.(updatedAt := now))
      && SessionAt(d.sessions, session) < 0
  {
    hide StripNotes, WithoutSession, Trim, ByteLength, SetAvailability, ScheduleOf, Pruned, Dropped, DatesOk, SlotOk;
    hide SessionsDistinct, PlayersDistinct, SchedulesOk, NotesOk, OneActiveDM;
    var i := SessionAt(c.sessions, session);
    if i < 0 {
      NothingToRemove(c.sessions, session);
      NothingToStrip(c, session);
    } else {
      assert c.sessions[i] in c.sessions && c.sessions[i] !in WithoutSession(c.sessions, session);
      RemovedIsGone(c.sessions, session);
    }
  }

  lemma RemovedIsGone(sessions: seq<Session>, id: Id)
    ensures SessionAt(WithoutSession(sessions, id), id) < 0
  {
    var r := WithoutSession(sessions, id);
    forall k | 0 <= k < |r| ensures r[k].id != id {
      assert r[k] in r;
    }
  }

  lemma NothingToStrip(c: Campaign, session: Id)
    requires NotesOk(c) && SessionAt(c.sessions, session) < 0
    ensures StripNotes(c.members, session) == c.members
  {
    forall i | 0 <= i < |c.members| ensures StripNotes(c.members, session)[i] == c.members[i] {
      assert MemberNotesOk(c.sessions, c.members[i].notes);
      assert session !in c.members[i].notes;
      assert c.members[i].notes - {session} == c.members[i].notes;
    }
  }

  lemma {:induction false} NothingToRemove(sessions: seq<Session>, id: Id)
    requires SessionAt(sessions, id) < 0
    ensures WithoutSession(sessions, id) == sessions
  {
    if sessions != [] {
      NothingToRemove(Init(sessions), id);
      assert sessions == Init(sessions) + [Last(sessions)];
    }
  }

  /** GetMine: the notes of the first entry of the user. */
  function NotesOf(c: Campaign, user: string): map<Id, Note> {
    var at := UserAt(c.members, user);
    if at < 0 then map[] else c.members[at].notes
  }

  /** A note that is put is read back trimmed; an empty one is gone; no other note of anybody changes. */
  lemma NotesReadBack(env: Env, now: int, c: Campaign, user: string, r: Request)
    requires r.PutNote? && Handle(env, now, c, user, r).1 == Done
    ensures var d := Handle(env, now, c, user, r).0;
      && NotesOf(d, user) == (if Trim(r.text) == "" then NotesOf(c, user) - {r.session}
                              else NotesOf(c, user)[r.session := Note(Trim(r.text), if r.direction == "rtl" then "rtl" else "ltr")])
      && (forall u: string :: u != user ==> NotesOf(d, u) == NotesOf(c, u))
      && d.sessions == c.sessions
  {
    hide Trim, ByteLength;
    var d, at := Handle(env, now, c, user, r).0, UserAt(c.members, user);
    UserAtSame(c.members, d.members, user);
    forall u: string | u != user ensures NotesOf(d, u) == NotesOf(c, u) {
      UserAtSame(c.members, d.members, u);
    }
  }

  predicate AllSpace(s: string) {
    forall i :: 0 <= i < |s| ==> IsSpace(s[i])
  }

  /** Trimming leaves no white space at either end, and removes nothing else. */
  lemma TrimmedText(s: string)
    ensures var t := Trim(s);
      && (t != "" ==> !IsSpace(t[0]) && !IsSpace(Last(t)))
      && (exists a, b :: s == a + t + b && AllSpace(a) && AllSpace(b))
  {
    var a := LeftPart(s);
    var b := RightPart(TrimLeft(s));
    assert s == a + Trim(s) + b;
    if Trim(s) != "" { assert TrimLeft(s)[0] == Trim(s)[0]; }
  }

  lemma {:induction false} LeftPart(s: string) returns (a: string)
    ensures s == a + TrimLeft(s) && AllSpace(a)
    ensures TrimLeft(s) != "" ==> !IsSpace(TrimLeft(s)[0])
  {
    if s != "" && IsSpace(s[0]) {
      var r := LeftPart(s[1..]);
      a := [s[0]] + r;
      assert s == [s[0]] + s[1..];
    } else {
      a := "";
    }
  }

  lemma {:induction false} RightPart(s: string) returns (b: string)
    ensures s == TrimRight(s) + b && AllSpace(b)
    ensures TrimRight(s) != "" ==> !IsSpace(Last(TrimRight(s)))
  {
    if s != "" && IsSpace(Last(s)) {
      var r := RightPart(Init(s));
      b := r + [Last(s)];
      assert s == Init(s) + [Last(s)];
    } else {
      b := "";
    }
  }

  /** Members only join: nobody's identity or role ever changes, and who is active changes only as the DM
      asks for that very player. */
  predicate MembersKept(c: Campaign, d: Campaign, user: string, r: Request) {
    && |d.members| >= |c.members|
    && forall i :: 0 <= i < |c.members| ==>
         && d.members[i].userId == c.members[i].userId && d.members[i].playerId == c.members[i].playerId
         && d.members[i].role == c.members[i].role
         && (d.members[i].active != c.members[i].active ==>
               r == SetActive(c.members[i].playerId, d.members[i].active) && c.members[i].role == Player
               && UserAt(c.members, user) >= 0 && c.members[UserAt(c.members, user)].role == DM)
  }

  lemma EffectKeepsMembers(env: Env, c: Campaign, user: string, r: Request)
    ensures MembersKept(c, Effect(env, c, user, r).0, user, r)
  {
    hide Trim, ByteLength, Pruned, ScheduleOf, Dropped, DatesOk, SlotOk, WithoutSession, Upsert;
  }

  lemma MembersStay(env: Env, now: int, c: Campaign, user: string, r: Request)
    ensures MembersKept(c, Handle(env, now, c, user, r).0, user, r)
  {
    EffectKeepsMembers(env, c, user, r);
    hide Effect, Writes, Pulled;
  }
}
