/** The password-reset requests: internal/handler/auth.go. Each is a small program of operations on the
    reset store and the user collection; other requests may act between any two of them. */
module ResetHandlers {
  import opened Seqs
  import opened ResetStore
  import opened ResetStores

  const MAX_VERIFY_ATTEMPTS := 5

  /** The hash functions in use: bcrypt comparison for codes, SHA-256 for tokens. */
  datatype Hashing = Hashing(matches: (string, string) -> bool, token: string -> string)

  /** Random values and the hashes of what was generated or typed in come with the request. */
  datatype Request =
    | Forgot(codeHash: string)
    | Verify(code: string, generated: string)
    | Reset(token: string, newHash: string, acceptable: bool)

  datatype Outcome = Requested | BadRequest | InvalidCode | TooManyAttempts | TokenIssued(token: string)
                   | InvalidToken | PasswordChanged

  /** Where a request stands; each phase but Done is one operation. */
  datatype Phase =
    | LookUp(codeHash: string)
    | CoolDown(codeHash: string)
    | IssueCode(codeHash: string)
    | ReadCode(code: string, generated: string)
    | Reserve(code: string, generated: string, seen: Session)
    | Promote(generated: string)
    | ReadToken(token: string, newHash: string)
    | FindUser(token: string, newHash: string)
    | SetPassword(token: string, newHash: string)
    | CleanUp
    | Done(outcome: Outcome)

  function FirstPhase(email: string, r: Request): Phase {
    match r
    case Forgot(hash) => if email == "" then Done(Requested) else LookUp(hash)
    case Verify(code, generated) => if email == "" || code == "" then Done(BadRequest) else ReadCode(code, generated)
    case Reset(token, newHash, acceptable) =>
      if email == "" || token == "" || !acceptable then Done(BadRequest) else ReadToken(token, newHash)
  }

  /** The reset-store operation of a phase; None when it works on the user collection. */
  function StoreOp(h: Hashing, p: Phase): Option<Op> {
    match p
    case CoolDown(_) => Some(MarkSent)
    case IssueCode(hash) => Some(SetCode(hash))
    case ReadCode(_, _) => Some(Get)
    case Reserve(_, _, _) => Some(IncrAttempts)
    case Promote(generated) => Some(PromoteToToken(h.token(generated)))
    case ReadToken(_, _) => Some(Get)
    case CleanUp => Some(Clear)
    case _ => None
  }

  function AfterIncr(h: Hashing, p: Phase, n: int): Phase
    requires p.Reserve?
  {
    if n == 0 then Done(InvalidCode)
    else if n > MAX_VERIFY_ATTEMPTS then Done(TooManyAttempts)
    else if h.matches(p.seen.codeHash, p.code) then Promote(p.generated)
    else Done(InvalidCode)
  }

  predicate TokenFits(h: Hashing, found: Option<Session>, token: string) {
    found.Some? && found.value.tokenHash != "" && found.value.tokenHash == h.token(token)
  }

  function AfterStore(h: Hashing, p: Phase, reply: Reply): Phase {
    match (p, reply)
    case (CoolDown(hash), Allowed(ok)) => if ok then IssueCode(hash) else Done(Requested)
    case (IssueCode(_), _) => Done(Requested)
    case (ReadCode(code, generated), Found(found)) =>
      if found == None || found.value.codeHash == "" then Done(InvalidCode)
      else if found.value.attempts >= MAX_VERIFY_ATTEMPTS then Done(TooManyAttempts)
      else Reserve(code, generated, found.value)
    case (Reserve(_, _, _), Attempts(n)) => AfterIncr(h, p, n)
    case (Promote(generated), _) => Done(TokenIssued(generated))
    case (ReadToken(token, newHash), Found(found)) =>
      if TokenFits(h, found, token) then FindUser(token, newHash) else Done(InvalidToken)
    case (CleanUp, _) => Done(PasswordChanged)
    case _ => p
  }

  /** `account` is the stored password hash of the user with this email. */
  function AfterUsers(p: Phase, account: Option<string>): Phase {
    match p
    case LookUp(hash) => if account == None then Done(Requested) else CoolDown(hash)
    case FindUser(token, newHash) => if account == None then Done(InvalidToken) else SetPassword(token, newHash)
    case SetPassword(_, _) => CleanUp
    case _ => p
  }

  function PasswordAfter(p: Phase, account: Option<string>): Option<string> {
    if p.SetPassword? && account.Some? then Some(p.newHash) else account
  }

  // ---------------------------------------------------------------- on the eager slots

  datatype Site = Site(slot: Slot, account: Option<string>)

  function StepPhase(h: Hashing, s: Site, now: int, p: Phase): (Site, Phase) {
    match StoreOp(h, p)
    case Some(op) => var (slot, reply) := SlotOp(s.slot, op, now); (s.(slot := slot), AfterStore(h, p, reply))
    case None => (s.(account := PasswordAfter(p, s.account)), AfterUsers(p, s.account))
  }

  /** A bound on the operations a request still makes. */
  function Fuel(p: Phase): nat {
    match p
    case ReadToken(_, _) => 4
    case LookUp(_) => 3
    case ReadCode(_, _) => 3
    case FindUser(_, _) => 3
    case CoolDown(_) => 2
    case Reserve(_, _, _) => 2
    case SetPassword(_, _) => 2
    case Done(_) => 0
    case _ => 1
  }

  /** Every operation brings a request closer to its end. */
  lemma StepBurnsFuel(h: Hashing, s: Site, now: int, p: Phase)
    requires !p.Done?
    ensures Fuel(StepPhase(h, s, now, p).1) < Fuel(p)
  {
  }

  /** A request that nobody disturbs, all at one instant. */
  function Alone(h: Hashing, s: Site, now: int, p: Phase): (Site, Phase)
    decreases Fuel(p)
  {
    if p.Done? then (s, p)
    else
      var (after, next) := StepPhase(h, s, now, p);
      StepBurnsFuel(h, s, now, p);
      Alone(h, after, now, next)
  }

  /** Unrolls a lone request by up to four operations. */
  lemma AloneUnrolled(h: Hashing, s: Site, now: int, p: Phase)
    ensures !p.Done? ==>
      Alone(h, s, now, p) == Alone(h, StepPhase(h, s, now, p).0, now, StepPhase(h, s, now, p).1)
  {
  }

  /** What every run keeps (see ResetProtocol): a code or a token, never both, and a count of attempts. */
  predicate SessionOk(s: Session) {
    s.attempts >= 0 && (s.codeHash == "" || s.tokenHash == "")
  }

  /** A code that may still be tried. */
  predicate Pending(s: Slot) {
    s.session.Some? && s.session.value.session.codeHash != "" && s.session.value.session.attempts < MAX_VERIFY_ATTEMPTS
  }

  /** A lone verification succeeds exactly when a code is pending, fewer than five attempts were made
      and the code matches; only then is the code exchanged for the token, for ten minutes. A wrong code costs
      an attempt and nothing else, and without a pending code nothing changes. */
  lemma VerifyAlone(h: Hashing, s: Site, now: int, email: string, code: string, generated: string)
    requires s.slot.session.Some? ==> SessionOk(s.slot.session.value.session)
    ensures var (after, p) := Alone(h, s, now, FirstPhase(email, Verify(code, generated)));
      if email == "" || code == "" then after == s && p == Done(BadRequest)
      else if s.slot.session == None || s.slot.session.value.session.codeHash == "" then after == s && p == Done(InvalidCode)
      else
        var t := s.slot.session.value;
        if t.session.attempts >= 5 then after == s && p == Done(TooManyAttempts)
        else if h.matches(t.session.codeHash, code) then
          && p == Done(TokenIssued(generated))
          && after == s.(slot := s.slot.(session := Some(Timed(Session("", 0, h.token(generated)), now + 600_000))))
        else
          && p == Done(InvalidCode)
          && after == s.(slot := s.slot.(session := Some(t.(session := t.session.(attempts := t.session.attempts + 1)))))
  {
    var p0 := FirstPhase(email, Verify(code, generated));
    if !p0.Done? {
      var (s1, p1) := StepPhase(h, s, now, p0);
      AloneUnrolled(h, s, now, p0);
      if Pending(s.slot) {
        var (s2, p2) := StepPhase(h, s1, now, p1);
        AloneUnrolled(h, s1, now, p1);
        AloneUnrolled(h, s2, now, p2);
      }
    }
  }

  /** What a verification needs from here on. */
  predicate WillVerify(h: Hashing, s: Slot, p: Phase) {
    match p
    case ReadCode(code, _) => Pending(s) && h.matches(s.session.value.session.codeHash, code)
    case Reserve(code, _, seen) =>
      s.session.Some? && s.session.value.session.attempts < MAX_VERIFY_ATTEMPTS && h.matches(seen.codeHash, code)
    case Promote(_) => true
    case _ => false
  }

  /** A verification that goes on alone from any point gets its token exactly then. */
  lemma VerificationEnds(h: Hashing, s: Site, now: int, p: Phase)
    requires p.ReadCode? || p.Reserve? || p.Promote?
    requires s.slot.session.Some? ==> SessionOk(s.slot.session.value.session)
    ensures Alone(h, s, now, p).1 == Done(TokenIssued(p.generated)) <==> WillVerify(h, s.slot, p)
  {
    var (s1, p1) := StepPhase(h, s, now, p);
    AloneUnrolled(h, s, now, p);
    if !p1.Done? {
      var (s2, p2) := StepPhase(h, s1, now, p1);
      AloneUnrolled(h, s1, now, p1);
      if !p2.Done? {
        AloneUnrolled(h, s2, now, p2);
      }
    }
  }

  /** A lone reset succeeds exactly when the token is the one promoted and the account exists; it then
      sets the password and leaves nothing to use the token on. Otherwise nothing changes. */
  lemma ResetAlone(h: Hashing, s: Site, now: int, email: string, r: Request)
    requires r.Reset?
    ensures var (after, p) := Alone(h, s, now, FirstPhase(email, r));
      var found := SlotOp(s.slot, Get, now).1.session;
      if email == "" || r.token == "" || !r.acceptable then after == s && p == Done(BadRequest)
      else if found.Some? && found.value.tokenHash != "" && found.value.tokenHash == h.token(r.token) && s.account.Some? then
        p == Done(PasswordChanged) && after == Site(Slot(None, None), Some(r.newHash))
      else after == s && p == Done(InvalidToken)
  {
    var p0 := FirstPhase(email, r);
    if !p0.Done? {
      var (s1, p1) := StepPhase(h, s, now, p0);
      AloneUnrolled(h, s, now, p0);
      if !p1.Done? {
        var (s2, p2) := StepPhase(h, s1, now, p1);
        AloneUnrolled(h, s1, now, p1);
        if !p2.Done? {
          var (s3, p3) := StepPhase(h, s2, now, p2);
          AloneUnrolled(h, s2, now, p2);
          AloneUnrolled(h, s3, now, p3);
        }
      }
    }
  }

  /** A lone request for a code replaces whatever session there was, unless the account is unknown or a
      code went out less than a minute ago; the answer never tells which. */
  lemma ForgotAlone(h: Hashing, s: Site, now: int, email: string, codeHash: string)
    ensures var (after, p) := Alone(h, s, now, FirstPhase(email, Forgot(codeHash)));
      && p == Done(Requested)
      && after == (if email == "" || s.account == None || s.slot.cooldown.Some? then s
                   else s.(slot := Slot(Some(Timed(Session(codeHash, 0, ""), now + 600_000)), Some(now + 60_000))))
  {
    var p0 := FirstPhase(email, Forgot(codeHash));
    if !p0.Done? {
      var (s1, p1) := StepPhase(h, s, now, p0);
      AloneUnrolled(h, s, now, p0);
      if !p1.Done? {
        var (s2, p2) := StepPhase(h, s1, now, p1);
        AloneUnrolled(h, s1, now, p1);
        AloneUnrolled(h, s2, now, p2);
      }
    }
  }

  // ---------------------------------------------------------------- the handlers' own code

  /** What a request finds at one of its operations: the other requests have acted meanwhile. */
  datatype World = World(maps: Maps, accounts: map<string, string>, now: int)

  function View(w: World, email: string): Site {
    Site(MemorySlot(w.maps, w.now, email), At(w.accounts, email))
  }

  /** The whole request when its operations meet worlds[0], worlds[1], ... and what it leaves of the
      email's slot and account. */
  function Drive(h: Hashing, email: string, worlds: seq<World>, p: Phase, last: Site): (Site, Phase) {
    if worlds == [] || p.Done? then (last, p)
    else
      var (after, next) := StepPhase(h, View(worlds[0], email), worlds[0].now, p);
      Drive(h, email, worlds[1..], next, after)
  }

  lemma DriveOn(h: Hashing, email: string, worlds: seq<World>, k: nat, p: Phase, last: Site, after: Site, next: Phase)
    requires k < |worlds| && !p.Done? && StepPhase(h, View(worlds[k], email), worlds[k].now, p) == (after, next)
    ensures Drive(h, email, worlds[k..], p, last) == Drive(h, email, worlds[k + 1..], next, after)
    ensures next.Done? ==> Drive(h, email, worlds[k..], p, last) == (after, next)
  {
    assert worlds[k..][1..] == worlds[k + 1..];
  }

  lemma DriveDone(h: Hashing, email: string, worlds: seq<World>, o: Outcome, last: Site)
    ensures Drive(h, email, worlds, Done(o), last) == (last, Done(o))
  {
  }

  class AuthHandler {
    const h: Hashing
    const resets: Memory
    var accounts: map<string, string>
    var clock: int

    constructor (h: Hashing)
      ensures this.h == h && fresh(resets) && accounts == map[]
    {
      this.h := h;
      resets := new Memory();
      accounts, clock := map[], 0;
    }

    function Here(): World
      reads this, resets
    {
      World(resets.View(), accounts, clock)
    }

    function Mine(email: string): Site
      reads this, resets
    {
      View(Here(), email)
    }

    /** The other requests act and time passes. */
    method Interfere(w: World)
      modifies this, resets
      ensures Here() == w
    {
      resets.sessions, resets.cooldowns, accounts, clock := w.maps.sessions, w.maps.cooldowns, w.accounts, w.now;
    }

    method FindByEmail(email: string) returns (account: Option<string>)
      ensures account == At(accounts, email)
    {
      account := if email in accounts then Some(accounts[email]) else None;
    }

    /** Stores a password of an existing account; nobody else's changes. */
    method MarkPasswordReset(email: string, hash: string)
      modifies `accounts
      ensures accounts.Keys == old(accounts.Keys)
      ensures forall e :: e in accounts ==> accounts[e] == if e == email then hash else old(accounts)[e]
    {
      if email in accounts {
        accounts := accounts[email := hash];
      }
    }

    method ForgotPassword(email: string, codeHash: string, worlds: seq<World>) returns (outcome: Outcome)
      requires |worlds| == 3
      modifies this, resets
      ensures Drive(h, email, worlds, FirstPhase(email, Forgot(codeHash)), old(Mine(email))) == (Mine(email), Done(outcome))
    {
      hide Drive, MemorySlot, SlotOp;
      ghost var before := Mine(email);
      assert worlds[0..] == worlds;
      if email == "" { DriveDone(h, email, worlds, Requested, before); return Requested; }
      Interfere(worlds[0]);
      var account := FindByEmail(email);
      DriveOn(h, email, worlds, 0, LookUp(codeHash), before, Mine(email), AfterUsers(LookUp(codeHash), account));
      if account == None { return Requested; }
      outcome := IssueResetCode(email, codeHash, worlds, Mine(email));
    }

    /** issueResetCode: guarded by the resend cooldown. */
    method IssueResetCode(email: string, codeHash: string, worlds: seq<World>, ghost before: Site) returns (outcome: Outcome)
      requires |worlds| == 3
      modifies this, resets
      ensures Drive(h, email, worlds[1..], CoolDown(codeHash), before) == (Mine(email), Done(outcome))
    {
      hide Drive, MemorySlot, SlotOp;
      outcome := Requested;
      Interfere(worlds[1]);
      var allowed := resets.DoMarkSent(email, clock);
      DriveOn(h, email, worlds, 1, CoolDown(codeHash), before, Mine(email), if allowed then IssueCode(codeHash) else Done(Requested));
      if !allowed { return; }
      ghost var then' := Mine(email);
      Interfere(worlds[2]);
      resets.DoSetCode(email, codeHash, clock);
      DriveOn(h, email, worlds, 2, IssueCode(codeHash), then', Mine(email), Done(Requested));
    }

    method VerifyResetCode(email: string, code: string, generated: string, worlds: seq<World>) returns (outcome: Outcome)
      requires |worlds| == 3
      modifies this, resets
      ensures Drive(h, email, worlds, FirstPhase(email, Verify(code, generated)), old(Mine(email))) == (Mine(email), Done(outcome))
    {
      hide Drive, MemorySlot, SlotOp;
      ghost var before := Mine(email);
      assert worlds[0..] == worlds;
      if email == "" || code == "" { DriveDone(h, email, worlds, BadRequest, before); return BadRequest; }
      Interfere(worlds[0]);
      var sess := resets.DoGet(email, clock);
      DriveOn(h, email, worlds, 0, ReadCode(code, generated), before, Mine(email), AfterStore(h, ReadCode(code, generated), Found(sess)));
      if sess == None || sess.value.codeHash == "" { return InvalidCode; }
      if sess.value.attempts >= MAX_VERIFY_ATTEMPTS { return TooManyAttempts; }
      before := Mine(email);
      Interfere(worlds[1]);
      var attempts := resets.DoIncrAttempts(email, clock);
      DriveOn(h, email, worlds, 1, Reserve(code, generated, sess.value), before, Mine(email),
              AfterIncr(h, Reserve(code, generated, sess.value), attempts));
      if attempts == 0 { return InvalidCode; }
      if attempts > MAX_VERIFY_ATTEMPTS { return TooManyAttempts; }
      if !h.matches(sess.value.codeHash, code) { return InvalidCode; }
      before := Mine(email);
      Interfere(worlds[2]);
      resets.DoPromoteToToken(email, h.token(generated), clock);
      DriveOn(h, email, worlds, 2, Promote(generated), before, Mine(email), Done(TokenIssued(generated)));
      outcome := TokenIssued(generated);
    }

    method ResetPassword(email: string, token: string, newHash: string, acceptable: bool, worlds: seq<World>)
      returns (outcome: Outcome)
      requires |worlds| == 4
      modifies this, resets
      ensures Drive(h, email, worlds, FirstPhase(email, Reset(token, newHash, acceptable)), old(Mine(email))) == (Mine(email), Done(outcome))
    {
      hide Drive, MemorySlot, SlotOp;
      ghost var before := Mine(email);
      assert worlds[0..] == worlds;
      if email == "" || token == "" || !acceptable { DriveDone(h, email, worlds, BadRequest, before); return BadRequest; }
      Interfere(worlds[0]);
      var sess := resets.DoGet(email, clock);
      DriveOn(h, email, worlds, 0, ReadToken(token, newHash), before, Mine(email), AfterStore(h, ReadToken(token, newHash), Found(sess)));
      if sess == None || sess.value.tokenHash == "" || sess.value.tokenHash != h.token(token) { return InvalidToken; }
      before := Mine(email);
      Interfere(worlds[1]);
      var account := FindByEmail(email);
      DriveOn(h, email, worlds, 1, FindUser(token, newHash), before, Mine(email), AfterUsers(FindUser(token, newHash), account));
      if account == None { return InvalidToken; }
      outcome := ApplyReset(email, token, newHash, worlds, Mine(email));
    }

    /** The writes of ResetPassword. */
    method ApplyReset(email: string, token: string, newHash: string, worlds: seq<World>, ghost last: Site)
      returns (outcome: Outcome)
      requires |worlds| == 4
      modifies this, resets
      ensures Drive(h, email, worlds[2..], SetPassword(token, newHash), last) == (Mine(email), Done(outcome))
    {
      hide Drive, MemorySlot, SlotOp;
      ghost var before := last;
      Interfere(worlds[2]);
      MarkPasswordReset(email, newHash);
      DriveOn(h, email, worlds, 2, SetPassword(token, newHash), before, Mine(email), CleanUp);
      before := Mine(email);
      Interfere(worlds[3]);
      resets.DoClear(email, clock);
      DriveOn(h, email, worlds, 3, CleanUp, before, Mine(email), Done(PasswordChanged));
      outcome := PasswordChanged;
    }
  }
}
