/** The code of the campaign store and its handlers, loop by loop. */
module CampaignStore {
  import opened Seqs
  import opened Campaign
  import opened CampaignHistory
  import opened CampaignLaws

  /** The in-place compaction `x[:0]` plus append: keeps the entries of the other players. */
  method Compact(a: array<Availability>, player: Id) returns (n: nat)
    modifies a
    ensures n <= a.Length && a[..n] == Dropped(old(a[..]), player)
  {
    n := 0;
    ghost var was := a[..];
    for i := 0 to a.Length
      invariant n <= i && a[..n] == Dropped(was[..i], player)
      invariant a[i..] == was[i..]
    {
      assert Init(was[..i + 1]) == was[..i] && a[i] == a[i..][0] == was[i];
      ghost var rest := a[i..];
      if a[i].playerId != player {
        a[n] := a[i];
        n := n + 1;
      }
      assert a[i + 1..] == rest[1..];
    }
    assert was[..a.Length] == was;
  }

  method WithoutEntriesOf(entries: seq<Availability>, player: Id) returns (r: seq<Availability>)
    ensures r == Dropped(entries, player)
  {
    var a := new Availability[|entries|](i requires 0 <= i < |entries| => entries[i]);
    assert a[..] == entries;
    var n := Compact(a, player);
    r := a[..n];
  }

  lemma {:induction false} NoneDropped(entries: seq<Availability>, player: Id)
    ensures |Dropped(entries, player)| <= |entries|
    ensures |Dropped(entries, player)| == |entries| ==> Dropped(entries, player) == entries
  {
    if entries != [] {
      assert entries == Init(entries) + [Last(entries)];
      NoneDropped(Init(entries), player);
    }
  }

  /** The first write of a deletion changes nothing exactly if there is no such session and the stamp is
      the present one already. */
  lemma ModifiedOrNot(c: Campaign, session: Id, now: int)
    ensures Pulled(c, session, now) == c <==> SessionAt(c.sessions, session) < 0 && c.updatedAt == now
  {
    var i := SessionAt(c.sessions, session);
    if i < 0 {
      NothingToRemove(c.sessions, session);
    } else {
      assert c.sessions[i] in c.sessions && c.sessions[i] !in WithoutSession(c.sessions, session);
    }
  }

  class Document {
    var sessions: seq<Session>
    var members: seq<Member>
    var next: Id
    var updatedAt: int

    /** CampaignHandler.Create */
    constructor (creator: string, now: int)
      ensures View() == Created(creator, now)
    {
      sessions, members, next, updatedAt := [], [Member(creator, 1, DM, true, map[])], 2, now;
    }

    function View(): Campaign
      reads this
    {
      Campaign(sessions, members, next, updatedAt)
    }

    method FindSession(id: Id) returns (idx: int)
      ensures idx == SessionAt(sessions, id)
    {
      for i := 0 to |sessions|
        invariant forall k :: 0 <= k < i ==> sessions[k].id != id
      {
        if sessions[i].id == id { return i; }
      }
      idx := -1;
    }

    /** findMember */
    method FindMember(user: string) returns (idx: int)
      ensures idx == UserAt(members, user)
    {
      for i := 0 to |members|
        invariant forall k :: 0 <= k < i ==> members[k].userId != user
      {
        if members[i].userId == user { return i; }
      }
      idx := -1;
    }

    method SetSessionAvailability(session: Id, e: Availability, zone: string, isDM: bool, now: int) returns (reply: Reply)
      modifies this
      ensures var (d, r) := SetAvailability(old(View()), session, e, zone, isDM);
        reply == r && View() == if r == Done then d.(updatedAt := now) else d
    {
      var idx := FindSession(session);
      if idx == -1 { return NotFound; }
      var sess := sessions[idx];
      if sess.schedule == None {
        if !isDM { return NotInitialized; }
        sess := sess.(schedule := Some(Schedule(zone, [], None)));
      }
      if sess.schedule.value.confirmed.Some? { return Locked; }
      var entries := UpsertEntry(sess.schedule.value.entries, e);
      sess := sess.(schedule := Some(sess.schedule.value.(entries := entries)));
      sessions, updatedAt := sessions[idx := sess], now;
      reply := Done;
    }

    static method UpsertEntry(entries: seq<Availability>, e: Availability) returns (r: seq<Availability>)
      ensures r == Upsert(entries, e)
    {
      for i := 0 to |entries|
        invariant forall k :: 0 <= k < i ==> entries[k].playerId != e.playerId
      {
        if entries[i].playerId == e.playerId {
          return entries[i := e];
        }
      }
      r := entries + [e];
    }

    method DeleteSessionAvailability(session: Id, player: Id, now: int) returns (reply: Reply)
      modifies this
      ensures var c, i := old(View()), SessionAt(old(sessions), session);
        if i < 0 then View() == c && reply == NotFound
        else if c.sessions[i].schedule == None then View() == c && reply == Done
        else
          var sc := c.sessions[i].schedule.value;
          View() == SetSchedule(c, i, sc.(entries := Dropped(sc.entries, player))).(updatedAt := now) && reply == Done
    {
      var idx := FindSession(session);
      if idx == -1 { return NotFound; }
      var sess := sessions[idx];
      if sess.schedule == None { return Done; }
      var filtered := WithoutEntriesOf(sess.schedule.value.entries, player);
      sess := sess.(schedule := Some(sess.schedule.value.(entries := filtered)));
      sessions, updatedAt := sessions[idx := sess], now;
      reply := Done;
    }

    method SetSessionConfirmedSlot(session: Id, slot: Slot, zone: string, now: int) returns (reply: Reply)
      modifies this
      ensures var c, i := old(View()), SessionAt(old(sessions), session);
        if i < 0 then View() == c && reply == NotFound
        else
          var sc := c.sessions[i].schedule.GetOr(Schedule(zone, [], None));
          View() == SetSchedule(c, i, sc.(confirmed := Some(slot))).(updatedAt := now) && reply == Done
    {
      var idx := FindSession(session);
      if idx == -1 { return NotFound; }
      var sess := sessions[idx];
      if sess.schedule == None { sess := sess.(schedule := Some(Schedule(zone, [], None))); }
      sess := sess.(schedule := Some(sess.schedule.value.(confirmed := Some(slot))));
      sessions, updatedAt := sessions[idx := sess], now;
      reply := Done;
    }

    method DeleteSessionConfirmedSlot(session: Id, now: int) returns (reply: Reply)
      modifies this
      ensures var c, i := old(View()), SessionAt(old(sessions), session);
        if i < 0 then View() == c && reply == NotFound
        else if c.sessions[i].schedule == None then View() == c && reply == Done
        else
          var sc := c.sessions[i].schedule.value;
          View() == SetSchedule(c, i, sc.(confirmed := None)).(updatedAt := now) && reply == Done
    {
      var idx := FindSession(session);
      if idx == -1 { return NotFound; }
      var sess := sessions[idx];
      if sess.schedule == None { return Done; }
      sess := sess.(schedule := Some(sess.schedule.value.(confirmed := None)));
      sessions, updatedAt := sessions[idx := sess], now;
      reply := Done;
    }

    /** Only sessions that lose an entry are changed, and the campaign is written only if there are any. */
    method PruneSchedulesForPlayer(player: Id, now: int)
      modifies `sessions, `updatedAt
      ensures sessions == Pruned(old(sessions), player)
      ensures updatedAt == if sessions == old(sessions) then old(updatedAt) else now
    {
      var was, pruned, touched := sessions, sessions, false;
      for i := 0 to |was|
        invariant |pruned| == |was| && sessions == was && updatedAt == old(updatedAt)
        invariant forall k :: 0 <= k < i ==> pruned[k] == PrunedSession(was[k], player)
        invariant forall k :: i <= k < |was| ==> pruned[k] == was[k]
        invariant touched <==> exists k :: 0 <= k < i && pruned[k] != was[k]
      {
        var sess := was[i];
        if sess.schedule.Some? {
          var sched := sess.schedule.value;
          NoneDropped(sched.entries, player);
          var filtered := WithoutEntriesOf(sched.entries, player);
          var removed := |filtered| < |sched.entries|;
          if removed {
            pruned := pruned[i := sess.(schedule := Some(sched.(entries := filtered)))];
            touched := true;
            assert pruned[i] != was[i];
          }
        }
      }
      if !touched {
        assert pruned == was;
        return;
      }
      sessions, updatedAt := pruned, now;
    }

    /** The $elemMatch filter refuses the DM; the second look tells why nothing matched. */
    method SetPlayerActive(player: Id, active: bool, now: int) returns (reply: Reply)
      requires PlayersDistinct(View())
      modifies `members, `updatedAt
      ensures var i := PlayerAt(old(members), player);
        if i < 0 then members == old(members) && reply == NotFound
        else if old(members)[i].role == DM then members == old(members) && reply == BadRequest
        else members == old(members)[i := old(members)[i].(active := active)] && reply == Done
      ensures updatedAt == if reply == Done then now else old(updatedAt)
    {
      for i := 0 to |members|
        invariant members == old(members) && updatedAt == old(updatedAt)
        invariant forall k :: 0 <= k < i ==> members[k].playerId != player || members[k].role == DM
      {
        if members[i].playerId == player && members[i].role == Player {
          members, updatedAt := members[i := members[i].(active := active)], now;
          return Done;
        }
      }
      for i := 0 to |members|
        invariant forall k :: 0 <= k < i ==> members[k].playerId != player
      {
        if members[i].playerId == player { return BadRequest; }
      }
      reply := NotFound;
    }

    /** $pull of the session together with the time stamp; if that modified the document, $unset of the
        session's notes on every member. */
    method DeleteSession(session: Id, now: int) returns (modified: bool)
      modifies `sessions, `members, `updatedAt
      ensures modified <==> SessionAt(old(sessions), session) >= 0 || old(updatedAt) != now
      ensures updatedAt == now && sessions == WithoutSession(old(sessions), session)
      ensures members == if modified then StripNotes(old(members), session) else old(members)
    {
      var before := View();
      ModifiedOrNot(before, session, now);
      var kept: seq<Session> := [];
      for i := 0 to |sessions|
        invariant kept == WithoutSession(sessions[..i], session)
      {
        assert Init(sessions[..i + 1]) == sessions[..i];
        if sessions[i].id != session { kept := kept + [sessions[i]]; }
      }
      assert sessions[..|sessions|] == sessions;
      sessions, updatedAt := kept, now;
      modified := View() != before;
      if !modified { return; }
      ghost var was := members;
      for i := 0 to |members|
        invariant |members| == |was| && sessions == kept && updatedAt == now
        invariant forall k :: 0 <= k < i ==> members[k] == was[k].(notes := was[k].notes - {session})
        invariant forall k :: i <= k < |was| ==> members[k] == was[k]
      {
        members := members[i := members[i].(notes := members[i].notes - {session})];
      }
    }

    /** PutAvailability: gates, then the store. */
    method PutAvailabilityHandler(env: Env, now: int, user: string, r: Request) returns (reply: Reply)
      requires r.PutAvailability?
      modifies this
      ensures (View(), reply) == Handle(env, now, old(View()), user, r)
    {
      hide SetAvailability;
      var at := FindMember(user);
      if at == -1 { return NotFound; }
      var member := members[at];
      if !member.active { return Forbidden; }
      if !DatesOk(env, r.byDate) { return BadRequest; }
      if r.zone != "" && !env.isZone(r.zone) { return BadRequest; }
      var existing := FindSession(r.session);
      var missing := existing == -1 || sessions[existing].schedule == None;
      if member.role == DM && missing && r.zone == "" { return BadRequest; }
      reply := SetSessionAvailability(r.session, Availability(member.playerId, r.byDate), r.zone, member.role == DM, now);
    }

    method DeleteAvailabilityHandler(env: Env, now: int, user: string, r: Request) returns (reply: Reply)
      requires r.DropAvailability?
      modifies this
      ensures (View(), reply) == Handle(env, now, old(View()), user, r)
    {
      var at := FindMember(user);
      if at == -1 { return NotFound; }
      if !members[at].active { return Forbidden; }
      reply := DeleteSessionAvailability(r.session, members[at].playerId, now);
    }

    method PutConfirmedSlotHandler(env: Env, now: int, user: string, r: Request) returns (reply: Reply)
      requires r.PutSlot?
      modifies this
      ensures (View(), reply) == Handle(env, now, old(View()), user, r)
    {
      var at := FindMember(user);
      if at == -1 { return NotFound; }
      if members[at].role != DM { return Forbidden; }
      if !env.isDate(r.slot.date) { return BadRequest; }
      if r.slot.dayPart !in DAY_PARTS { return BadRequest; }
      if r.slot.startAt.Some? && !env.isInstant(r.slot.startAt.value) { return BadRequest; }
      if r.slot.duration.Some? && r.slot.duration.value <= 0 { return BadRequest; }
      if r.zone != "" && !env.isZone(r.zone) { return BadRequest; }
      var existing := FindSession(r.session);
      var missing := existing == -1 || sessions[existing].schedule == None;
      if missing && r.zone == "" { return BadRequest; }
      reply := SetSessionConfirmedSlot(r.session, r.slot, r.zone, now);
    }

    method DeleteConfirmedSlotHandler(env: Env, now: int, user: string, r: Request) returns (reply: Reply)
      requires r.DropSlot?
      modifies this
      ensures (View(), reply) == Handle(env, now, old(View()), user, r)
    {
      var at := FindMember(user);
      if at == -1 { return NotFound; }
      if members[at].role != DM { return Forbidden; }
      reply := DeleteSessionConfirmedSlot(r.session, now);
    }

    /** SetPlayerActive with the archive cascade. */
    method SetActiveHandler(env: Env, now: int, user: string, r: Request) returns (reply: Reply)
      requires r.SetActive? && PlayersDistinct(View())
      modifies this
      ensures (View(), reply) == Handle(env, now, old(View()), user, r)
      ensures reply == Done ==> |members| == |old(members)| && forall i :: 0 <= i < |members| ==>
        members[i] == if old(members)[i].playerId == r.playerId then old(members)[i].(active := r.active) else old(members)[i]
    {
      hide Pruned;
      var at := FindMember(user);
      if at == -1 { return NotFound; }
      if members[at].role != DM { return Forbidden; }
      reply := SetPlayerActive(r.playerId, r.active, now);
      if reply == Done && !r.active {
        PruneSchedulesForPlayer(r.playerId, now);
      }
    }

    method DeleteSessionHandler(env: Env, now: int, user: string, r: Request) returns (reply: Reply)
      requires r.RemoveSession?
      modifies this
      ensures (View(), reply) == Handle(env, now, old(View()), user, r)
    {
      var at := FindMember(user);
      if at == -1 { return NotFound; }
      if members[at].role != DM { return Forbidden; }
      ModifiedOrNot(View(), r.session, now);
      var found := DeleteSession(r.session, now);
      if !found { return NotFound; }
      reply := Done;
    }

    /** PutMine: an active member, an existing session, a text that is not too long. */
    method PutNoteHandler(env: Env, now: int, user: string, r: Request) returns (reply: Reply)
      requires r.PutNote?
      modifies this
      ensures (View(), reply) == Handle(env, now, old(View()), user, r)
    {
      hide Trim, ByteLength;
      var at := FindMember(user);
      if at == -1 { return NotFound; }
      if !members[at].active { return Forbidden; }
      var idx := FindSession(r.session);
      if idx == -1 { return NotFound; }
      if ByteLength(r.text) > MAX_NOTE { return BadRequest; }
      var trimmed := Trim(r.text);
      var notes := members[at].notes;
      if trimmed == "" {
        notes := notes - {r.session};
      } else {
        notes := notes[r.session := Note(trimmed, Direction(r.direction))];
      }
      members, updatedAt := members[at := members[at].(notes := notes)], now;
      reply := Done;
    }

    method MembershipHandler(env: Env, now: int, user: string, r: Request) returns (reply: Reply)
      requires r.AddMember? || r.NewSession? || r.EditSession?
      modifies this
      ensures (View(), reply) == Handle(env, now, old(View()), user, r)
    {
      var at := FindMember(user);
      if at == -1 { return NotFound; }
      if members[at].role != DM { return Forbidden; }
      match r {
        case AddMember(linkedUser) =>
          if linkedUser == None { return NotFound; }
          members := members + [Member(linkedUser.value, next, Player, true, map[])];
          next := next + 1;
        case NewSession(title, about) =>
          if title == "" { return BadRequest; }
          sessions := sessions + [Session(next, title, about, None)];
          next := next + 1;
        case EditSession(session, name, description) =>
          if name == None && description == None { return BadRequest; }
          var idx := FindSession(session);
          if idx == -1 { return NotFound; }
          var sess := sessions[idx];
          if name.Some? { sess := sess.(name := name.value); }
          if description.Some? { sess := sess.(description := description.value); }
          sessions := sessions[idx := sess];
      }
      updatedAt := now;
      reply := Done;
    }

    /** Any request of any user keeps the aggregate's invariant. */
    method Serve(env: Env, now: int, user: string, r: Request) returns (reply: Reply)
      requires Inv(env, View())
      modifies this
      ensures (View(), reply) == Handle(env, now, old(View()), user, r) && Inv(env, View())
    {
      HandleKeepsInv(env, now, View(), user, r);
      hide Handle, SchedulesOk, NotesOk;
      match r
      case SetActive(_, _) => reply := SetActiveHandler(env, now, user, r);
      case RemoveSession(_) => reply := DeleteSessionHandler(env, now, user, r);
      case PutAvailability(_, _, _) => reply := PutAvailabilityHandler(env, now, user, r);
      case DropAvailability(_) => reply := DeleteAvailabilityHandler(env, now, user, r);
      case PutSlot(_, _, _) => reply := PutConfirmedSlotHandler(env, now, user, r);
      case DropSlot(_) => reply := DeleteConfirmedSlotHandler(env, now, user, r);
      case PutNote(_, _, _) => reply := PutNoteHandler(env, now, user, r);
      case AddMember(_) => reply := MembershipHandler(env, now, user, r);
      case NewSession(_, _) => reply := MembershipHandler(env, now, user, r);
      case EditSession(_, _, _) => reply := MembershipHandler(env, now, user, r);
    }
  }
}
