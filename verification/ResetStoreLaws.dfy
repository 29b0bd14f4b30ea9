/** Both reset stores implement the same eagerly expiring slots, under a clock that does not run back. */
module ResetStoreLaws {
  import opened Seqs
  import opened ResetStore

  /** Lazy deletion is never observable: Memory answers as the eager slot does, still stands for it
      afterwards, and leaves every other email alone. */
  lemma MemoryRefines(m: Maps, email: string, op: Op, now: int, e: string)
    ensures var (after, reply) := MemoryOp(m, email, op, now);
      && SlotOp(MemorySlot(m, now, email), op, now) == (MemorySlot(after, now, email), reply)
      && (e != email ==> MemorySlot(after, now, e) == MemorySlot(m, now, e))
  {
  }

  /** Expiring at a later time does not care whether one expired before. */
  lemma ExpireLater(s: Slot, b: Bounds, now: int, later: int)
    requires now <= later
    ensures Expired(Expired(s, b, now), b, later) == Expired(s, b, later)
  {
  }

  // ---------------------------------------------------------------- Redis

  lemma PresentSlot(inclusive: bool, db: DB, now: int, e: string)
    requires RedisOk(db)
    ensures RedisOk(Present(inclusive, db, now)) && RedisSlot(inclusive, Present(inclusive, db, now), now, e) == RedisSlot(inclusive, db, now, e)
    ensures SessionKey(e) in Present(inclusive, db, now) <==> RedisSlot(inclusive, db, now, e).session.Some?
    ensures CooldownKey(e) in Present(inclusive, db, now) <==> RedisSlot(inclusive, db, now, e).cooldown.Some?
  {
    var s, c := SessionKey(e), CooldownKey(e);
    assert s in db ==> Deadline(db[s]) == db[s].expiresAt;
    assert c in db ==> Deadline(db[c]) == Some(db[c].until);
  }

  /** The field-by-field pipeline of PromoteToToken leaves the token and nothing else. */
  lemma PromotePipeline(db: DB, email: string, hash: string, at: int)
    requires RedisOk(db)
    ensures var k := SessionKey(email);
      Expire(HSet(HDel(db, k, {CodeField, AttemptsField}), k, map[TokenField := Text(hash)]), k, at)
        == db[k := Hash(map[TokenField := Text(hash)], Some(at))]
  {
    var k := SessionKey(email);
    var kept := FieldsOf(db, k) - {CodeField, AttemptsField};
    assert forall f :: f in kept ==> f == TokenField;
    assert kept + map[TokenField := Text(hash)] == map[TokenField := Text(hash)];
  }

  lemma SetCodePipeline(db: DB, email: string, hash: string, at: int)
    ensures var k := SessionKey(email);
      Expire(HSet(Del(db, {k}), k, map[CodeField := Text(hash), AttemptsField := Num(0)]), k, at)
        == db[k := Hash(map[CodeField := Text(hash), AttemptsField := Num(0)], Some(at))]
  {
    var k := SessionKey(email);
    var fs := map[CodeField := Text(hash), AttemptsField := Num(0)];
    assert FieldsOf(Del(db, {k}), k) + fs == fs;
  }

  lemma StoredSession(inclusive: bool, db: DB, now: int, email: string, fields: map<Field, FieldValue>, at: int, e: string)
    requires RedisOk(db) && Alive(inclusive, now, at)
    requires FieldsOk(fields)
    ensures var after := db[SessionKey(email) := Hash(fields, Some(at))];
      && RedisOk(after)
      && RedisSlot(inclusive, after, now, e) ==
           if e == email then RedisSlot(inclusive, db, now, e).(session := Some(Timed(SessionOf(fields), at))) else RedisSlot(inclusive, db, now, e)
  {
  }

  /** One command sequence on a database in which nothing is overdue meets the slot's transition. */
  predicate Refines(inclusive: bool, db: DB, email: string, op: Op, now: int, e: string) {
    var (after, reply) := RedisOp(inclusive, db, email, op, now);
    && RedisOk(after)
    && SlotOp(RedisSlot(inclusive, db, now, email), op, now) == (RedisSlot(inclusive, after, now, email), reply)
    && (e != email ==> RedisSlot(inclusive, after, now, e) == RedisSlot(inclusive, db, now, e))
  }

  lemma IncrementScript(inclusive: bool, db: DB, email: string, now: int, e: string)
    requires RedisOk(db) && Present(inclusive, db, now) == db
    ensures Refines(inclusive, db, email, IncrAttempts, now, e)
  {
    var k := SessionKey(email);
    PresentSlot(inclusive, db, now, email);
    if k in db {
      assert k in Present(inclusive, db, now);
      var fs := FieldsOf(db, k);
      var gs := fs + map[AttemptsField := Num(NumAt(fs, AttemptsField) + 1)];
      assert AttemptsField in gs;
      StoredSession(inclusive, db, now, email, gs, db[k].expiresAt.value, email);
      StoredSession(inclusive, db, now, email, gs, db[k].expiresAt.value, e);
    }
  }

  lemma SetCodeCommands(inclusive: bool, db: DB, email: string, hash: string, now: int, e: string)
    requires RedisOk(db) && Present(inclusive, db, now) == db
    ensures Refines(inclusive, db, email, SetCode(hash), now, e)
  {
    var fields := map[CodeField := Text(hash), AttemptsField := Num(0)];
    assert CodeField in fields;
    SetCodePipeline(db, email, hash, now + CODE_TTL);
    StoredSession(inclusive, db, now, email, fields, now + CODE_TTL, email);
    StoredSession(inclusive, db, now, email, fields, now + CODE_TTL, e);
  }

  lemma PromoteCommands(inclusive: bool, db: DB, email: string, hash: string, now: int, e: string)
    requires RedisOk(db) && Present(inclusive, db, now) == db
    ensures Refines(inclusive, db, email, PromoteToToken(hash), now, e)
  {
    var fields := map[TokenField := Text(hash)];
    assert TokenField in fields;
    PromotePipeline(db, email, hash, now + CODE_TTL);
    StoredSession(inclusive, db, now, email, fields, now + CODE_TTL, email);
    StoredSession(inclusive, db, now, email, fields, now + CODE_TTL, e);
  }

  lemma OtherCommands(inclusive: bool, db: DB, email: string, op: Op, now: int, e: string)
    requires RedisOk(db) && Present(inclusive, db, now) == db && (op.MarkSent? || op.Get? || op.Clear?)
    ensures Refines(inclusive, db, email, op, now, e)
  {
    PresentSlot(inclusive, db, now, email);
    PresentSlot(inclusive, db, now, e);
  }

  lemma PresentTwice(inclusive: bool, db: DB, now: int)
    ensures Present(inclusive, Present(inclusive, db, now), now) == Present(inclusive, db, now)
  {
  }

  /** Redis's commands implement the same slots and never leave a session
      without a deadline. */
  lemma RedisRefines(inclusive: bool, before: DB, email: string, op: Op, now: int, e: string)
    requires RedisOk(before)
    ensures Refines(inclusive, before, email, op, now, e)
  {
    var db := Present(inclusive, before, now);
    PresentSlot(inclusive, before, now, email);
    PresentSlot(inclusive, before, now, e);
    PresentTwice(inclusive, before, now);
    assert Refines(inclusive, db, email, op, now, e) by {
      hide Refines;
      match op
      case SetCode(hash) => SetCodeCommands(inclusive, db, email, hash, now, e);
      case PromoteToToken(hash) => PromoteCommands(inclusive, db, email, hash, now, e);
      case IncrAttempts => IncrementScript(inclusive, db, email, now, e);
      case MarkSent => OtherCommands(inclusive, db, email, op, now, e);
      case Get => OtherCommands(inclusive, db, email, op, now, e);
      case Clear => OtherCommands(inclusive, db, email, op, now, e);
    }
    PresentFirst(inclusive, before, email, op, now);
    hide RedisOp, SlotOp, RedisSlot;
  }

  lemma PresentFirst(inclusive: bool, db: DB, email: string, op: Op, now: int)
    ensures RedisOp(inclusive, db, email, op, now) == RedisOp(inclusive, Present(inclusive, db, now), email, op, now)
  {
    PresentTwice(inclusive, db, now);
  }

  // ---------------------------------------------------------------- whole runs

  datatype Request = Request(email: string, op: Op, now: int)

  predicate Monotone(run: seq<Request>) {
    forall i, j :: 0 <= i < j < |run| ==> run[i].now <= run[j].now
  }

  /** The slot of an email after a run: before each request everything overdue is dropped. */
  function SpecSlot(b: Bounds, run: seq<Request>, e: string): Slot {
    if run == [] then EMPTY
    else
      var s := Expired(SpecSlot(b, Init(run), e), b, Last(run).now);
      if Last(run).email == e then SlotOp(s, Last(run).op, Last(run).now).0 else s
  }

  /** The reply of the eager slots to a request after a run. */
  function SpecReply(b: Bounds, before: seq<Request>, r: Request): Reply {
    SlotOp(Expired(SpecSlot(b, before, r.email), b, r.now), r.op, r.now).1
  }

  function SpecReplies(b: Bounds, run: seq<Request>): (replies: seq<Reply>)
    ensures |replies| == |run|
  {
    if run == [] then [] else SpecReplies(b, Init(run)) + [SpecReply(b, Init(run), Last(run))]
  }

  function MemoryRun(run: seq<Request>): (Maps, seq<Reply>) {
    if run == [] then (Maps(map[], map[]), [])
    else
      var (m, replies) := MemoryRun(Init(run));
      var (n, reply) := MemoryOp(m, Last(run).email, Last(run).op, Last(run).now);
      (n, replies + [reply])
  }

  function RedisRun(inclusive: bool, run: seq<Request>): (DB, seq<Reply>) {
    if run == [] then (map[], [])
    else
      var (m, replies) := RedisRun(inclusive, Init(run));
      var (n, reply) := RedisOp(inclusive, m, Last(run).email, Last(run).op, Last(run).now);
      (n, replies + [reply])
  }

  lemma {:induction false} MemoryRunSlots(run: seq<Request>, e: string, now: int)
    requires Monotone(run) && (run != [] ==> Last(run).now <= now)
    ensures MemorySlot(MemoryRun(run).0, now, e) == Expired(SpecSlot(MEMORY, run, e), MEMORY, now)
  {
    if run != [] {
      var m, r := MemoryRun(Init(run)).0, Last(run);
      var n := MemoryRun(run).0;
      MemoryRunSlots(Init(run), e, r.now);
      MemoryRefines(m, r.email, r.op, r.now, e);
      ExpireLater(Slot(At(n.sessions, e), At(n.cooldowns, e)), MEMORY, r.now, now);
    }
  }

  /** Memory gives the replies of the eager slots, over any run with a monotone clock. */
  lemma {:induction false} MemoryRunRefines(run: seq<Request>)
    requires Monotone(run)
    ensures MemoryRun(run).1 == SpecReplies(MEMORY, run)
  {
    if run != [] {
      var r := Last(run);
      MemoryRunRefines(Init(run));
      MemoryRunSlots(Init(run), r.email, r.now);
      MemoryRefines(MemoryRun(Init(run)).0, r.email, r.op, r.now, r.email);
    }
  }

  lemma {:induction false} RedisRunSlots(inclusive: bool, run: seq<Request>, e: string, now: int)
    requires Monotone(run) && (run != [] ==> Last(run).now <= now)
    ensures RedisOk(RedisRun(inclusive, run).0)
    ensures var b := RedisBounds(inclusive);
      RedisSlot(inclusive, RedisRun(inclusive, run).0, now, e) == Expired(SpecSlot(b, run, e), b, now)
  {
    if run != [] {
      hide RedisOp, SlotOp;
      var r := Last(run);
      RedisRunSlots(inclusive, Init(run), e, r.now);
      RedisRefines(inclusive, RedisRun(inclusive, Init(run)).0, r.email, r.op, r.now, e);
      assert RedisSlot(inclusive, RedisRun(inclusive, run).0, r.now, e) == SpecSlot(RedisBounds(inclusive), run, e);
      RedisSlotLater(inclusive, RedisRun(inclusive, run).0, r.now, now, e);
    }
  }

  lemma RedisSlotLater(inclusive: bool, db: DB, now: int, later: int, e: string)
    requires RedisOk(db) && now <= later
    ensures RedisSlot(inclusive, db, later, e) == Expired(RedisSlot(inclusive, db, now, e), RedisBounds(inclusive), later)
  {
  }

  /** Redis gives the replies of the eager slots with its own way of comparing deadlines. */
  lemma {:induction false} RedisRunRefines(inclusive: bool, run: seq<Request>)
    requires Monotone(run)
    ensures RedisRun(inclusive, run).1 == SpecReplies(RedisBounds(inclusive), run)
  {
    if run != [] {
      hide RedisOp, SlotOp;
      var r := Last(run);
      RedisRunRefines(inclusive, Init(run));
      RedisRunSlots(inclusive, Init(run), r.email, r.now);
      RedisRefines(inclusive, RedisRun(inclusive, Init(run)).0, r.email, r.op, r.now, r.email);
    }
  }

  // ---------------------------------------------------------------- when the stores agree

  /** The request meets, at the very instant, a deadline of its own email that only one of the two ways
      to compare lets pass. */
  predicate Tie(x: Bounds, y: Bounds, before: seq<Request>, r: Request) {
    match r.op
    case MarkSent => x.cooldown != y.cooldown && SpecSlot(if x.cooldown then x else y, before, r.email).cooldown == Some(r.now)
    case Get => SessionTie(x, y, before, r)
    case IncrAttempts => SessionTie(x, y, before, r)
    case _ => false
  }

  predicate SessionTie(x: Bounds, y: Bounds, before: seq<Request>, r: Request) {
    x.session != y.session
    && var t := SpecSlot(if x.session then x else y, before, r.email).session; t.Some? && t.value.expiresAt == r.now
  }

  predicate NoTies(x: Bounds, y: Bounds, run: seq<Request>) {
    forall k :: 0 <= k < |run| ==> !Tie(x, y, run[..k], run[k])
  }

  /** Equal, or all that is left of the more generous side ends right now. */
  predicate NearSessions(x: bool, y: bool, s: Option<Timed>, t: Option<Timed>, now: int) {
    if x == y || s == t then s == t
    else if x then t == None && s.Some? && s.value.expiresAt == now
    else s == None && t.Some? && t.value.expiresAt == now
  }

  predicate NearCooldowns(x: bool, y: bool, s: Option<int>, t: Option<int>, now: int) {
    if x == y || s == t then s == t else if x then t == None && s == Some(now) else s == None && t == Some(now)
  }

  predicate Near(x: Bounds, y: Bounds, s: Slot, t: Slot, now: int) {
    NearSessions(x.session, y.session, s.session, t.session, now) && NearCooldowns(x.cooldown, y.cooldown, s.cooldown, t.cooldown, now)
  }

  lemma ExpiryKeepsNear(x: Bounds, y: Bounds, s: Slot, t: Slot, last: int, now: int)
    requires last <= now && Near(x, y, s, t, last)
    ensures Near(x, y, Expired(s, x, now), Expired(t, y, now), now)
  {
  }

  predicate Counted(s: Slot) {
    s.session.Some? ==> s.session.value.session.attempts >= 0
  }

  lemma {:induction false} SpecCounted(b: Bounds, run: seq<Request>, e: string)
    ensures Counted(SpecSlot(b, run, e))
  {
    if run != [] { SpecCounted(b, Init(run), e); }
  }

  /** On near slots a request is answered alike exactly if it is no tie, and then the slots stay near. */
  lemma OpKeepsNear(x: Bounds, y: Bounds, s: Slot, t: Slot, op: Op, now: int)
    requires Near(x, y, s, t, now) && Counted(s) && Counted(t)
    ensures var (s', a), (t', b) := SlotOp(s, op, now), SlotOp(t, op, now);
      && (a == b <==> match op
                      case MarkSent => s.cooldown == t.cooldown
                      case Get => s.session == t.session
                      case IncrAttempts => s.session == t.session
                      case _ => true)
      && (a == b ==> Near(x, y, s', t', now))
  {
  }

  lemma TieIsDifference(x: Bounds, y: Bounds, before: seq<Request>, r: Request)
    requires Near(x, y, Expired(SpecSlot(x, before, r.email), x, r.now), Expired(SpecSlot(y, before, r.email), y, r.now), r.now)
    ensures Tie(x, y, before, r) <==> SpecReply(x, before, r) != SpecReply(y, before, r)
    ensures !Tie(x, y, before, r) ==>
      Near(x, y, SpecSlot(x, before + [r], r.email), SpecSlot(y, before + [r], r.email), r.now)
  {
    var s, t := Expired(SpecSlot(x, before, r.email), x, r.now), Expired(SpecSlot(y, before, r.email), y, r.now);
    SpecCounted(x, before, r.email);
    SpecCounted(y, before, r.email);
    OpKeepsNear(x, y, s, t, r.op, r.now);
    assert Init(before + [r]) == before && Last(before + [r]) == r;
    hide SlotOp;
  }

  lemma NoTiesSnoc(x: Bounds, y: Bounds, run: seq<Request>)
    requires run != []
    ensures NoTies(x, y, run) <==> NoTies(x, y, Init(run)) && !Tie(x, y, Init(run), Last(run))
  {
    hide Tie;
    assert forall k :: 0 <= k < |Init(run)| ==> Init(run)[..k] == run[..k] && Init(run)[k] == run[k];
    assert run[..|run| - 1] == Init(run) && run[|run| - 1] == Last(run);
  }

  /** One request of a run without ties, seen by one email. */
  lemma NearStep(x: Bounds, y: Bounds, before: seq<Request>, r: Request, e: string)
    requires Near(x, y, Expired(SpecSlot(x, before, e), x, r.now), Expired(SpecSlot(y, before, e), y, r.now), r.now)
    requires !Tie(x, y, before, r)
    ensures Near(x, y, SpecSlot(x, before + [r], e), SpecSlot(y, before + [r], e), r.now)
  {
    hide Near, SlotOp, Expired, Tie;
    assert Init(before + [r]) == before && Last(before + [r]) == r;
    if r.email == e { TieIsDifference(x, y, before, r); }
  }

  lemma {:induction false} SlotsNear(x: Bounds, y: Bounds, run: seq<Request>, e: string, now: int)
    requires Monotone(run) && NoTies(x, y, run) && (run != [] ==> Last(run).now <= now)
    ensures Near(x, y, Expired(SpecSlot(x, run, e), x, now), Expired(SpecSlot(y, run, e), y, now), now)
  {
    hide Near, SlotOp, Expired, Tie, NoTies, SpecSlot;
    if run != [] {
      var before, r := Init(run), Last(run);
      assert before + [r] == run;
      NoTiesSnoc(x, y, run);
      SlotsNear(x, y, before, e, r.now);
      NearStep(x, y, before, r, e);
      ExpiryKeepsNear(x, y, SpecSlot(x, run, e), SpecSlot(y, run, e), r.now, now);
    } else {
      assert SpecSlot(x, [], e) == SpecSlot(y, [], e) == EMPTY by { EmptySlot(x, e); EmptySlot(y, e); }
      EmptyNear(x, y, now);
    }
  }

  lemma EmptySlot(b: Bounds, e: string)
    ensures SpecSlot(b, [], e) == EMPTY
  {
  }

  lemma EmptyNear(x: Bounds, y: Bounds, now: int)
    ensures Near(x, y, Expired(EMPTY, x, now), Expired(EMPTY, y, now), now)
  {
  }

  /** Two ways to compare deadlines give the same replies exactly on the runs without ties. */
  lemma {:induction false} RepliesAgree(x: Bounds, y: Bounds, run: seq<Request>)
    requires Monotone(run)
    ensures SpecReplies(x, run) == SpecReplies(y, run) <==> NoTies(x, y, run)
  {
    if run != [] {
      hide Near, SpecReply, Tie, NoTies;
      var r := Last(run);
      RepliesAgree(x, y, Init(run));
      NoTiesSnoc(x, y, run);
      LastReply(x, run);
      LastReply(y, run);
      if NoTies(x, y, Init(run)) {
        SlotsNear(x, y, Init(run), r.email, r.now);
        TieIsDifference(x, y, Init(run), r);
      }
    } else {
      assert NoTies(x, y, run);
    }
  }

  lemma LastReply(b: Bounds, run: seq<Request>)
    requires run != []
    ensures SpecReplies(b, run)[..|run| - 1] == SpecReplies(b, Init(run))
    ensures SpecReplies(b, run) == SpecReplies(b, run)[..|run| - 1] + [SpecReply(b, Init(run), Last(run))]
  {
  }

  /** Over any run with a monotone clock the two stores give the same replies if and only if no request
      meets a deadline of its own email at the very instant: a session's end if Redis drops keys there,
      a cooldown's end if Redis keeps them. */
  lemma StoresAgree(inclusive: bool, run: seq<Request>)
    requires Monotone(run)
    ensures MemoryRun(run).1 == RedisRun(inclusive, run).1 <==> NoTies(MEMORY, RedisBounds(inclusive), run)
  {
    MemoryRunRefines(run);
    RedisRunRefines(inclusive, run);
    RepliesAgree(MEMORY, RedisBounds(inclusive), run);
  }

  /** Either way they can be told apart: by a read ten minutes after a code was set, or by a second send
      one minute after the first. */
  lemma StoresDifferAtTheInstant(inclusive: bool, email: string, hash: string, now: int)
    ensures var run := if inclusive then [Request(email, MarkSent, now), Request(email, MarkSent, now + COOLDOWN_TTL)]
                       else [Request(email, SetCode(hash), now), Request(email, Get, now + CODE_TTL)];
      && Monotone(run) && MemoryRun(run).1 != RedisRun(inclusive, run).1
  {
    var run := if inclusive then [Request(email, MarkSent, now), Request(email, MarkSent, now + COOLDOWN_TTL)]
               else [Request(email, SetCode(hash), now), Request(email, Get, now + CODE_TTL)];
    var x, y := MEMORY, RedisBounds(inclusive);
    assert Init(run[..1]) == [] && run[..1][0] == run[0];
    assert Tie(x, y, run[..1], run[1]);
    StoresAgree(inclusive, run);
  }
}
