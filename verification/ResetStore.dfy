/** Password-reset sessions: internal/resetstore. Two stores, one specification: a map whose entries
    vanish when they expire. */
module ResetStore {
  import opened Seqs

  const CODE_TTL := 600_000     // ten minutes, in milliseconds
  const COOLDOWN_TTL := 60_000

  datatype Session = Session(codeHash: string, attempts: int, tokenHash: string)

  datatype Timed = Timed(session: Session, expiresAt: int)

  datatype Op = MarkSent | SetCode(hash: string) | Get | IncrAttempts | PromoteToToken(hash: string) | Clear

  datatype Reply = Allowed(allowed: bool) | Found(session: Option<Session>) | Attempts(n: int) | Nothing

  // ---------------------------------------------------------------- the specification

  /** The state of one email: its live session and the end of its running cooldown. */
  datatype Slot = Slot(session: Option<Timed>, cooldown: Option<int>)

  const EMPTY := Slot(None, None)

  predicate Alive(inclusive: bool, now: int, expiresAt: int) {
    now < expiresAt || (inclusive && now == expiresAt)
  }

  /** Whether sessions and cooldowns still exist at the very instant they end. */
  datatype Bounds = Bounds(session: bool, cooldown: bool)

  /** Memory serves a session at its last instant and lets a cooldown end there. */
  const MEMORY := Bounds(true, false)

  /** Redis compares all keys alike; which way is Redis's business, so it is a parameter. */
  function RedisBounds(inclusive: bool): Bounds {
    Bounds(inclusive, inclusive)
  }

  /** Eager expiry. */
  function Expired(s: Slot, b: Bounds, now: int): Slot {
    Slot(if s.session.Some? && Alive(b.session, now, s.session.value.expiresAt) then s.session else None,
         if s.cooldown.Some? && Alive(b.cooldown, now, s.cooldown.value) then s.cooldown else None)
  }

  /** What an operation does to a slot in which nothing is expired. Other emails are unaffected. */
  function SlotOp(s: Slot, op: Op, now: int): (Slot, Reply) {
    match op
    case MarkSent =>
      if s.cooldown.Some? then (s, Allowed(false))
      else (s.(cooldown := Some(now + COOLDOWN_TTL)), Allowed(true))
    case SetCode(hash) => (s.(session := Some(Timed(Session(hash, 0, ""), now + CODE_TTL))), Nothing)
    case Get => (s, Found(match s.session case Some(t) => Some(t.session) case None => None))
    case IncrAttempts =>
      if s.session.None? then (s, Attempts(0))
      else
        var t := s.session.value;
        var n := t.session.attempts + 1;
        (s.(session := Some(t.(session := t.session.(attempts := n)))), Attempts(n))
    case PromoteToToken(hash) => (s.(session := Some(Timed(Session("", 0, hash), now + CODE_TTL))), Nothing)
    case Clear => (EMPTY, Nothing)
  }

  // ---------------------------------------------------------------- the in-process store

  /** The two maps of Memory: entries stay until somebody trips over them. */
  datatype Maps = Maps(sessions: map<string, Timed>, cooldowns: map<string, int>)

  function At<V>(m: map<string, V>, email: string): Option<V> {
    if email in m then Some(m[email]) else None
  }

  /** What Memory's maps stand for at a given time. */
  function MemorySlot(m: Maps, now: int, email: string): Slot {
    Expired(Slot(At(m.sessions, email), At(m.cooldowns, email)), MEMORY, now)
  }

  function MemoryOp(m: Maps, email: string, op: Op, now: int): (Maps, Reply) {
    var live := email in m.sessions && now <= m.sessions[email].expiresAt;
    match op
    case MarkSent =>
      if email in m.cooldowns && now < m.cooldowns[email] then (m, Allowed(false))
      else (m.(cooldowns := m.cooldowns[email := now + COOLDOWN_TTL]), Allowed(true))
    case SetCode(hash) =>
      (m.(sessions := m.sessions[email := Timed(Session(hash, 0, ""), now + CODE_TTL)]), Nothing)
    case Get =>
      if live then (m, Found(Some(m.sessions[email].session)))
      else (m.(sessions := m.sessions - {email}), Found(None))
    case IncrAttempts =>
      if !live then (m, Attempts(0))
      else
        var t := m.sessions[email];
        var n := t.session.attempts + 1;
        (m.(sessions := m.sessions[email := t.(session := t.session.(attempts := n))]), Attempts(n))
    case PromoteToToken(hash) =>
      (m.(sessions := m.sessions[email := Timed(Session("", 0, hash), now + CODE_TTL)]), Nothing)
    case Clear =>
      (Maps(m.sessions - {email}, m.cooldowns - {email}), Nothing)
  }

  // ---------------------------------------------------------------- the Redis store

  datatype Key = SessionKey(email: string) | CooldownKey(email: string)

  datatype Field = CodeField | AttemptsField | TokenField

  datatype FieldValue = Text(text: string) | Num(n: int)

  datatype Value = Hash(fields: map<Field, FieldValue>, expiresAt: Option<int>) | Flag(until: int)

  type DB = map<Key, Value>

  function Deadline(v: Value): Option<int> {
    match v case Hash(_, e) => e case Flag(u) => Some(u)
  }

  /** Keys past their deadline do not exist for any command. */
  function Present(inclusive: bool, db: DB, now: int): DB {
    map k | k in db && (Deadline(db[k]).Some? ==> Alive(inclusive, now, Deadline(db[k]).value)) :: db[k]
  }

  function FieldsOf(db: DB, k: Key): map<Field, FieldValue> {
    if k in db && db[k].Hash? then db[k].fields else map[]
  }

  /** DEL, HSET, HDEL, EXPIRE, as Redis defines them on present keys. */
  function Del(db: DB, ks: set<Key>): DB {
    db - ks
  }

  function HSet(db: DB, k: Key, fs: map<Field, FieldValue>): DB {
    db[k := Hash(FieldsOf(db, k) + fs, if k in db then Deadline(db[k]) else None)]
  }

  function HDel(db: DB, k: Key, fs: set<Field>): DB {
    if k !in db then db
    else if FieldsOf(db, k) - fs == map[] then db - {k}
    else db[k := Hash(FieldsOf(db, k) - fs, Deadline(db[k]))]
  }

  function Expire(db: DB, k: Key, at: int): DB {
    if k !in db then db else db[k := Hash(FieldsOf(db, k), Some(at))]
  }

  function TextAt(fs: map<Field, FieldValue>, f: Field): string {
    if f in fs && fs[f].Text? then fs[f].text else ""
  }

  function NumAt(fs: map<Field, FieldValue>, f: Field): int {
    if f in fs && fs[f].Num? then fs[f].n else 0
  }

  function SessionOf(fs: map<Field, FieldValue>): Session {
    Session(TextAt(fs, CodeField), NumAt(fs, AttemptsField), TextAt(fs, TokenField))
  }

  /** Each method is one transaction, pipeline or script. */
  function RedisOp(inclusive: bool, before: DB, email: string, op: Op, now: int): (DB, Reply) {
    var k, db := SessionKey(email), Present(inclusive, before, now);
    match op
    case MarkSent =>
      if CooldownKey(email) in db then (db, Allowed(false))
      else (db[CooldownKey(email) := Flag(now + COOLDOWN_TTL)], Allowed(true))
    case SetCode(hash) =>
      (Expire(HSet(Del(db, {k}), k, map[CodeField := Text(hash), AttemptsField := Num(0)]), k, now + CODE_TTL), Nothing)
    case Get =>
      (db, Found(if FieldsOf(db, k) == map[] then None else Some(SessionOf(FieldsOf(db, k)))))
    case IncrAttempts =>
      if k !in db then (db, Attempts(0))
      else
        var n := NumAt(FieldsOf(db, k), AttemptsField) + 1;
        (HSet(db, k, map[AttemptsField := Num(n)]), Attempts(n))
    case PromoteToToken(hash) =>
      (Expire(HSet(HDel(db, k, {CodeField, AttemptsField}), k, map[TokenField := Text(hash)]), k, now + CODE_TTL), Nothing)
    case Clear =>
      (Del(db, {k, CooldownKey(email)}), Nothing)
  }

  /** What the database stands for at a given time. */
  function RedisSlot(inclusive: bool, db: DB, now: int, email: string): Slot {
    var s, c := SessionKey(email), CooldownKey(email);
    Expired(Slot(if s in db && db[s].Hash? then Some(Timed(SessionOf(db[s].fields), db[s].expiresAt.GetOr(now))) else None,
                 if c in db && db[c].Flag? then Some(db[c].until) else None),
            RedisBounds(inclusive), now)
  }

  /** A session hash is never empty and holds only the three fields, each of its own kind. */
  predicate FieldsOk(fs: map<Field, FieldValue>) {
    && fs != map[]
    && (CodeField in fs ==> fs[CodeField].Text?)
    && (AttemptsField in fs ==> fs[AttemptsField].Num?)
    && (TokenField in fs ==> fs[TokenField].Text?)
  }

  /** Every session has a deadline: no operation leaves an orphan without one. */
  predicate RedisOk(db: DB) {
    forall k :: k in db ==>
      match k
      case CooldownKey(_) => db[k].Flag?
      case SessionKey(_) => db[k].Hash? && db[k].expiresAt.Some? && FieldsOk(db[k].fields)
  }
}
