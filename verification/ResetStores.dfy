/** The two stores as objects: internal/resetstore/memory.go and redis.go. Whatever the maps or hashes hold,
    each method does to the slot of its email what the eager specification says, and nothing to any other. */
module ResetStores {
  import opened Seqs
  import opened ResetStore
  import opened ResetStoreLaws

  /** What an operation on the maps means for all slots. */
  lemma MemoryRefined(m: Maps, email: string, op: Op, now: int, reply: Reply)
    requires MemoryOp(m, email, op, now).1 == reply
    ensures var after := MemoryOp(m, email, op, now).0;
      && SlotOp(MemorySlot(m, now, email), op, now) == (MemorySlot(after, now, email), reply)
      && forall e :: e != email ==> MemorySlot(after, now, e) == MemorySlot(m, now, e)
  {
    forall e: string {
      MemoryRefines(m, email, op, now, e);
    }
    MemoryRefines(m, email, op, now, email);
  }

  class Memory {
    var sessions: map<string, Timed>
    var cooldowns: map<string, int>

    constructor ()
      ensures forall e, now :: SlotOf(e, now) == EMPTY
    {
      sessions, cooldowns := map[], map[];
    }

    function View(): Maps
      reads this
    {
      Maps(sessions, cooldowns)
    }

    function SlotOf(email: string, now: int): Slot
      reads this
    {
      MemorySlot(View(), now, email)
    }

    method DoMarkSent(email: string, now: int) returns (allowed: bool)
      modifies this
      ensures (SlotOf(email, now), Allowed(allowed)) == SlotOp(old(SlotOf(email, now)), MarkSent, now)
      ensures forall e :: e != email ==> SlotOf(e, now) == old(SlotOf(e, now))
    {
      ghost var before := View();
      allowed := !(email in cooldowns && now < cooldowns[email]);
      if allowed {
        cooldowns := cooldowns[email := now + COOLDOWN_TTL];
      }
      MemoryRefined(before, email, MarkSent, now, Allowed(allowed));
    }

    method DoSetCode(email: string, hash: string, now: int)
      modifies this
      ensures SlotOf(email, now) == SlotOp(old(SlotOf(email, now)), SetCode(hash), now).0
      ensures forall e :: e != email ==> SlotOf(e, now) == old(SlotOf(e, now))
    {
      ghost var before := View();
      sessions := sessions[email := Timed(Session(hash, 0, ""), now + CODE_TTL)];
      MemoryRefined(before, email, SetCode(hash), now, Nothing);
    }

    /** An overdue entry goes as soon as somebody trips over it; nobody can tell. */
    method DoGet(email: string, now: int) returns (s: Option<Session>)
      modifies this
      ensures (SlotOf(email, now), Found(s)) == SlotOp(old(SlotOf(email, now)), Get, now)
      ensures forall e :: e != email ==> SlotOf(e, now) == old(SlotOf(e, now))
    {
      ghost var before := View();
      s := None;
      var ok := email in sessions;
      if !ok || now > sessions[email].expiresAt {
        if ok {
          sessions := sessions - {email};
        }
        assert !ok ==> sessions - {email} == sessions;
      } else {
        s := Some(sessions[email].session);
      }
      MemoryRefined(before, email, Get, now, Found(s));
    }

    method DoIncrAttempts(email: string, now: int) returns (n: int)
      modifies this
      ensures (SlotOf(email, now), Attempts(n)) == SlotOp(old(SlotOf(email, now)), IncrAttempts, now)
      ensures forall e :: e != email ==> SlotOf(e, now) == old(SlotOf(e, now))
    {
      ghost var before := View();
      n := 0;
      if email in sessions && now <= sessions[email].expiresAt {
        var e := sessions[email];
        e := e.(session := e.session.(attempts := e.session.attempts + 1));
        sessions := sessions[email := e];
        n := e.session.attempts;
      }
      MemoryRefined(before, email, IncrAttempts, now, Attempts(n));
    }

    method DoPromoteToToken(email: string, hash: string, now: int)
      modifies this
      ensures SlotOf(email, now) == SlotOp(old(SlotOf(email, now)), PromoteToToken(hash), now).0
      ensures forall e :: e != email ==> SlotOf(e, now) == old(SlotOf(e, now))
    {
      ghost var before := View();
      sessions := sessions[email := Timed(Session("", 0, hash), now + CODE_TTL)];
      MemoryRefined(before, email, PromoteToToken(hash), now, Nothing);
    }

    method DoClear(email: string, now: int)
      modifies this
      ensures SlotOf(email, now) == SlotOp(old(SlotOf(email, now)), Clear, now).0
      ensures forall e :: e != email ==> SlotOf(e, now) == old(SlotOf(e, now))
    {
      ghost var before := View();
      sessions := sessions - {email};
      cooldowns := cooldowns - {email};
      MemoryRefined(before, email, Clear, now, Nothing);
    }
  }

  /** What a sequence of commands means for all slots. */
  lemma RedisRefined(inclusive: bool, db: DB, email: string, op: Op, now: int, reply: Reply)
    requires RedisOk(db) && RedisOp(inclusive, db, email, op, now).1 == reply
    ensures var after := RedisOp(inclusive, db, email, op, now).0;
      && RedisOk(after)
      && SlotOp(RedisSlot(inclusive, db, now, email), op, now) == (RedisSlot(inclusive, after, now, email), reply)
      && forall e :: e != email ==> RedisSlot(inclusive, after, now, e) == RedisSlot(inclusive, db, now, e)
  {
    hide RedisOp, RedisSlot, SlotOp, RedisOk;
    forall e: string {
      RedisRefines(inclusive, db, email, op, now, e);
    }
    RedisRefines(inclusive, db, email, op, now, email);
  }

  class Redis {
    var db: DB
    const inclusive: bool

    constructor (inclusive: bool)
      ensures this.inclusive == inclusive && Valid()
      ensures forall e, now :: SlotOf(e, now) == EMPTY
    {
      this.inclusive := inclusive;
      db := map[];
    }

    /** In particular no session is without a deadline. */
    predicate Valid()
      reads this
    {
      RedisOk(db)
    }

    function SlotOf(email: string, now: int): Slot
      reads this
    {
      RedisSlot(inclusive, db, now, email)
    }

    method DoMarkSent(email: string, now: int) returns (allowed: bool)
      requires Valid()
      modifies this
      ensures Valid() && (SlotOf(email, now), Allowed(allowed)) == SlotOp(old(SlotOf(email, now)), MarkSent, now)
      ensures forall e :: e != email ==> SlotOf(e, now) == old(SlotOf(e, now))
    {
      ghost var before := db;
      db := Present(inclusive, db, now);
      allowed := CooldownKey(email) !in db;
      if allowed {
        db := db[CooldownKey(email) := Flag(now + COOLDOWN_TTL)];
      }
      RedisRefined(inclusive, before, email, MarkSent, now, Allowed(allowed));
    }

    method DoSetCode(email: string, hash: string, now: int)
      requires Valid()
      modifies this
      ensures Valid() && SlotOf(email, now) == SlotOp(old(SlotOf(email, now)), SetCode(hash), now).0
      ensures forall e :: e != email ==> SlotOf(e, now) == old(SlotOf(e, now))
    {
      ghost var before := db;
      var k := SessionKey(email);
      db := Present(inclusive, db, now);
      db := Del(db, {k});
      db := HSet(db, k, map[CodeField := Text(hash), AttemptsField := Num(0)]);
      db := Expire(db, k, now + CODE_TTL);
      RedisRefined(inclusive, before, email, SetCode(hash), now, Nothing);
    }

    method DoGet(email: string, now: int) returns (s: Option<Session>)
      requires Valid()
      modifies this
      ensures Valid() && (SlotOf(email, now), Found(s)) == SlotOp(old(SlotOf(email, now)), Get, now)
      ensures forall e :: e != email ==> SlotOf(e, now) == old(SlotOf(e, now))
    {
      ghost var before := db;
      db := Present(inclusive, db, now);
      var vals := FieldsOf(db, SessionKey(email));
      s := if vals == map[] then None else Some(SessionOf(vals));
      RedisRefined(inclusive, before, email, Get, now, Found(s));
    }

    /** The script: EXISTS, then HINCRBY, in one step. */
    method DoIncrAttempts(email: string, now: int) returns (n: int)
      requires Valid()
      modifies this
      ensures Valid() && (SlotOf(email, now), Attempts(n)) == SlotOp(old(SlotOf(email, now)), IncrAttempts, now)
      ensures forall e :: e != email ==> SlotOf(e, now) == old(SlotOf(e, now))
    {
      ghost var before := db;
      var k := SessionKey(email);
      db := Present(inclusive, db, now);
      n := 0;
      if k in db {
        n := NumAt(FieldsOf(db, k), AttemptsField) + 1;
        db := HSet(db, k, map[AttemptsField := Num(n)]);
      }
      RedisRefined(inclusive, before, email, IncrAttempts, now, Attempts(n));
    }

    method DoPromoteToToken(email: string, hash: string, now: int)
      requires Valid()
      modifies this
      ensures Valid() && SlotOf(email, now) == SlotOp(old(SlotOf(email, now)), PromoteToToken(hash), now).0
      ensures forall e :: e != email ==> SlotOf(e, now) == old(SlotOf(e, now))
    {
      ghost var before := db;
      var k := SessionKey(email);
      db := Present(inclusive, db, now);
      db := HDel(db, k, {CodeField, AttemptsField});
      db := HSet(db, k, map[TokenField := Text(hash)]);
      db := Expire(db, k, now + CODE_TTL);
      RedisRefined(inclusive, before, email, PromoteToToken(hash), now, Nothing);
    }

    method DoClear(email: string, now: int)
      requires Valid()
      modifies this
      ensures Valid() && SlotOf(email, now) == SlotOp(old(SlotOf(email, now)), Clear, now).0
      ensures forall e :: e != email ==> SlotOf(e, now) == old(SlotOf(e, now))
    {
      ghost var before := db;
      db := Present(inclusive, db, now);
      db := Del(db, {SessionKey(email), CooldownKey(email)});
      RedisRefined(inclusive, before, email, Clear, now, Nothing);
    }
  }
}
