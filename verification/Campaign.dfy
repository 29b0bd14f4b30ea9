/** The campaign aggregate: members, sessions, their schedules and private notes.
    internal/store/campaign.go, internal/handler/session_schedule.go, session_notes.go, session.go and
    the membership handlers of campaign.go and player.go. Every handler is one step. */
module Campaign {
  import opened Seqs

  /** Generated ids of players and sessions, in the order they were generated. */
  type Id = nat

  /** What the standard library accepts as a calendar date, as a time zone and as an RFC 3339 instant. */
  datatype Env = Env(isDate: string -> bool, isZone: string -> bool, isInstant: string -> bool)

  datatype Role = DM | Player

  datatype Note = Note(text: string, direction: string)

  datatype Member = Member(userId: string, playerId: Id, role: Role, active: bool, notes: map<Id, Note>)

  datatype DayParts = DayParts(morning: Option<bool>, noon: Option<bool>, evening: Option<bool>)

  datatype Availability = Availability(playerId: Id, byDate: map<string, DayParts>)

  datatype Slot = Slot(date: string, dayPart: string, startAt: Option<string>, duration: Option<int>)

  datatype Schedule = Schedule(timezone: string, entries: seq<Availability>, confirmed: Option<Slot>)

  datatype Session = Session(id: Id, name: string, description: string, schedule: Option<Schedule>)

  /** `updatedAt` counts milliseconds, the precision in which it is stored. */
  datatype Campaign = Campaign(sessions: seq<Session>, members: seq<Member>, next: Id, updatedAt: int)

  datatype Request =
    | AddMember(linkedUser: Option<string>)
    | SetActive(playerId: Id, active: bool)
    | NewSession(title: string, about: string)
    | EditSession(session: Id, name: Option<string>, description: Option<string>)
    | RemoveSession(session: Id)
    | PutAvailability(session: Id, byDate: map<string, DayParts>, zone: string)
    | DropAvailability(session: Id)
    | PutSlot(session: Id, slot: Slot, zone: string)
    | DropSlot(session: Id)
    | PutNote(session: Id, text: string, direction: string)

  datatype Reply = Done | BadRequest | Forbidden | NotFound | NotInitialized | Locked

  // ---------------------------------------------------------------- lookups

  function SessionAt(sessions: seq<Session>, id: Id): (i: int)
    ensures -1 <= i < |sessions|
    ensures i >= 0 ==> sessions[i].id == id
    ensures forall k :: 0 <= k < |sessions| && (i < 0 || k < i) ==> sessions[k].id != id
  {
    FirstAt(sessions, (s: Session) => s.id == id)
  }

  /** findMember: the first entry of this user. */
  function UserAt(members: seq<Member>, user: string): (i: int)
    ensures -1 <= i < |members|
    ensures i >= 0 ==> members[i].userId == user
    ensures forall k :: 0 <= k < |members| && (i < 0 || k < i) ==> members[k].userId != user
  {
    FirstAt(members, (m: Member) => m.userId == user)
  }

  function PlayerAt(members: seq<Member>, player: Id): (i: int)
    ensures -1 <= i < |members|
    ensures i >= 0 ==> members[i].playerId == player
    ensures forall k :: 0 <= k < |members| && (i < 0 || k < i) ==> members[k].playerId != player
  {
    FirstAt(members, (m: Member) => m.playerId == player)
  }

  function EntryAt(entries: seq<Availability>, player: Id): (i: int)
    ensures -1 <= i < |entries|
    ensures i >= 0 ==> entries[i].playerId == player
    ensures forall k :: 0 <= k < |entries| && (i < 0 || k < i) ==> entries[k].playerId != player
  {
    FirstAt(entries, (e: Availability) => e.playerId == player)
  }

  // ---------------------------------------------------------------- schedules

  /** Replaces the player's entry, or appends one. */
  function Upsert(entries: seq<Availability>, e: Availability): seq<Availability> {
    var i := EntryAt(entries, e.playerId);
    if i >= 0 then entries[i := e] else entries + [e]
  }

  function Dropped(entries: seq<Availability>, player: Id): seq<Availability> {
    if entries == [] then []
    else Dropped(Init(entries), player) + (if Last(entries).playerId == player then [] else [Last(entries)])
  }

  function PrunedSession(s: Session, player: Id): Session {
    match s.schedule
    case None => s
    case Some(sc) => s.(schedule := Some(sc.(entries := Dropped(sc.entries, player))))
  }

  /** PruneSchedulesForPlayer */
  function Pruned(sessions: seq<Session>, player: Id): (r: seq<Session>)
    ensures |r| == |sessions| && forall i :: 0 <= i < |r| ==> r[i] == PrunedSession(sessions[i], player)
  {
    if sessions == [] then [] else Pruned(Init(sessions), player) + [PrunedSession(Last(sessions), player)]
  }

  function WithoutSession(sessions: seq<Session>, id: Id): (r: seq<Session>)
    ensures forall s :: s in r <==> s in sessions && s.id != id
  {
    if sessions == [] then []
    else
      assert sessions == Init(sessions) + [Last(sessions)];
      WithoutSession(Init(sessions), id) + (if Last(sessions).id == id then [] else [Last(sessions)])
  }

  function StripNotes(members: seq<Member>, id: Id): (r: seq<Member>)
    ensures |r| == |members| && forall i :: 0 <= i < |r| ==> r[i] == members[i].(notes := members[i].notes - {id})
  {
    if members == [] then []
    else StripNotes(Init(members), id) + [Last(members).(notes := Last(members).notes - {id})]
  }

  const DAY_PARTS := {"morning", "noon", "evening"}

  predicate SlotOk(env: Env, s: Slot) {
    && env.isDate(s.date) && s.dayPart in DAY_PARTS
    && (s.startAt.Some? ==> env.isInstant(s.startAt.value)) && (s.duration.Some? ==> s.duration.value > 0)
  }

  predicate DatesOk(env: Env, byDate: map<string, DayParts>) {
    forall d :: d in byDate ==> env.isDate(d)
  }

  function SetSchedule(c: Campaign, i: nat, sc: Schedule): Campaign
    requires i < |c.sessions|
  {
    c.(sessions := c.sessions[i := c.sessions[i].(schedule := Some(sc))])
  }

  /** SetSessionAvailability */
  function SetAvailability(c: Campaign, session: Id, e: Availability, zone: string, isDM: bool): (Campaign, Reply) {
    var i := SessionAt(c.sessions, session);
    if i < 0 then (c, NotFound)
    else
      var schedule := c.sessions[i].schedule;
      if schedule == None && !isDM then (c, NotInitialized)
      else
        var sc := schedule.GetOr(Schedule(zone, [], None));
        if sc.confirmed.Some? then (c, Locked)
        else (SetSchedule(c, i, sc.(entries := Upsert(sc.entries, e))), Done)
  }

  /** Existing schedule of a session, if both exist. */
  function ScheduleOf(c: Campaign, session: Id): Option<Schedule> {
    var i := SessionAt(c.sessions, session);
    if i < 0 then None else c.sessions[i].schedule
  }

  // ---------------------------------------------------------------- notes

  const MAX_NOTE := 10_000

  /** White space as Go's unicode.IsSpace has it. */
  predicate IsSpace(ch: char) {
    var n := ch as int;
    n in {9, 10, 11, 12, 13, 32, 0x85, 0xA0, 0x1680, 0x2028, 0x2029, 0x202F, 0x205F, 0x3000} || 0x2000 <= n <= 0x200A
  }

  /** Go's len counts the bytes of the UTF-8 encoding. */
  function ByteLength(s: string): nat {
    if s == "" then 0
    else
      var n := Last(s) as int;
      ByteLength(Init(s)) + (if n < 0x80 then 1 else if n < 0x800 then 2 else if n < 0x1_0000 then 3 else 4)
  }

  function TrimLeft(s: string): string {
    if s != "" && IsSpace(s[0]) then TrimLeft(s[1..]) else s
  }

  function TrimRight(s: string): string {
    if s != "" && IsSpace(Last(s)) then TrimRight(Init(s)) else s
  }

  function Trim(s: string): string {
    TrimRight(TrimLeft(s))
  }

  function Direction(s: string): string {
    if s == "rtl" then "rtl" else "ltr"
  }

  // ---------------------------------------------------------------- requests

  predicate DMOnly(r: Request) {
    !r.PutAvailability? && !r.DropAvailability? && !r.PutNote?
  }

  /** One request by a user, apart from the time stamp and from what a deletion makes of it. Outsiders see
      no campaign; archived members may not write. */
  function Effect(env: Env, c: Campaign, user: string, r: Request): (Campaign, Reply) {
    var at := UserAt(c.members, user);
    if at < 0 then (c, NotFound)
    else if DMOnly(r) && c.members[at].role != DM then (c, Forbidden)
    else if !DMOnly(r) && !c.members[at].active then (c, Forbidden)
    else
      var isDM, player := c.members[at].role == DM, c.members[at].playerId;
      match r
      case AddMember(linkedUser) =>
        if linkedUser == None then (c, NotFound)
        else (c.(members := c.members + [Member(linkedUser.value, c.next, Player, true, map[])], next := c.next + 1), Done)
      case SetActive(target, active) =>
        var i := PlayerAt(c.members, target);
        if i < 0 then (c, NotFound)
        else if c.members[i].role == DM then (c, BadRequest)
        else
          var flipped := c.(members := c.members[i := c.members[i].(active := active)]);
          (if active then flipped else flipped.(sessions := Pruned(c.sessions, target)), Done)
      case NewSession(title, about) =>
        if title == "" then (c, BadRequest)
        else (c.(sessions := c.sessions + [Session(c.next, title, about, None)], next := c.next + 1), Done)
      case EditSession(session, name, description) =>
        var i := SessionAt(c.sessions, session);
        if name == None && description == None then (c, BadRequest)
        else if i < 0 then (c, NotFound)
        else
          var s := c.sessions[i];
          (c.(sessions := c.sessions[i := s.(name := name.GetOr(s.name), description := description.GetOr(s.description))]), Done)
      case RemoveSession(session) =>
        (c.(sessions := WithoutSession(c.sessions, session), members := StripNotes(c.members, session)), Done)
      case PutAvailability(session, byDate, zone) =>
        if !DatesOk(env, byDate) || (zone != "" && !env.isZone(zone)) then (c, BadRequest)
        else if isDM && ScheduleOf(c, session) == None && zone == "" then (c, BadRequest)
        else SetAvailability(c, session, Availability(player, byDate), zone, isDM)
      case DropAvailability(session) =>
        var i := SessionAt(c.sessions, session);
        if i < 0 then (c, NotFound)
        else if c.sessions[i].schedule == None then (c, Done)
        else
          var sc := c.sessions[i].schedule.value;
          (SetSchedule(c, i, sc.(entries := Dropped(sc.entries, player))), Done)
      case PutSlot(session, slot, zone) =>
        if !SlotOk(env, slot) || (zone != "" && !env.isZone(zone)) then (c, BadRequest)
        else if ScheduleOf(c, session) == None && zone == "" then (c, BadRequest)
        else
          var i := SessionAt(c.sessions, session);
          if i < 0 then (c, NotFound)
          else (SetSchedule(c, i, c.sessions[i].schedule.GetOr(Schedule(zone, [], None)).(confirmed := Some(slot))), Done)
      case DropSlot(session) =>
        var i := SessionAt(c.sessions, session);
        if i < 0 then (c, NotFound)
        else if c.sessions[i].schedule == None then (c, Done)
        else (SetSchedule(c, i, c.sessions[i].schedule.value.(confirmed := None)), Done)
      case PutNote(session, text, direction) =>
        if SessionAt(c.sessions, session) < 0 then (c, NotFound)
        else if ByteLength(text) > MAX_NOTE then (c, BadRequest)
        else
          var m := c.members[at];
          var notes := if Trim(text) == "" then m.notes - {session}
                       else m.notes[session := Note(Trim(text), Direction(direction))];
          (c.(members := c.members[at := m.(notes := notes)]), Done)
  }

  /** An accepted request writes, unless there is no schedule to clear anything from. */
  predicate Writes(c: Campaign, r: Request) {
    r.DropAvailability? || r.DropSlot? ==> ScheduleOf(c, r.session).Some?
  }

  /** The first write of a deletion; the database counts a document as modified if it differs afterwards. */
  function Pulled(c: Campaign, session: Id, now: int): Campaign {
    c.(sessions := WithoutSession(c.sessions, session), updatedAt := now)
  }

  /** One request by a user at a given time. */
  function Handle(env: Env, now: int, c: Campaign, user: string, r: Request): (Campaign, Reply) {
    var (d, reply) := Effect(env, c, user, r);
    if reply != Done || !Writes(c, r) then (d, reply)
    else if r.RemoveSession? && Pulled(c, r.session, now) == c then (c, NotFound)
    else (d.(updatedAt := now), Done)
  }

  /** CampaignHandler.Create: the creator is the first member. */
  function Created(user: string, now: int): Campaign {
    Campaign([], [Member(user, 1, DM, true, map[])], 2, now)
  }
}
