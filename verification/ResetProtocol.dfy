/** All reset requests for one email, interleaved at the level of single store operations, on either
    store (`bounds` says how it compares deadlines). Requests for other emails work on other slots. */
module ResetProtocol {
  import opened Seqs
  import opened ResetStore
  import opened ResetHandlers

  /** What a step does, as seen from outside. Times are the clock at the step. */
  datatype Event =
    | Issued(hash: string, now: int)                                          // SetCode
    | CodeRead(who: nat, hash: string, now: int)                              // a verification found a code to try
    | Compared(who: nat, hash: string, code: string, matched: bool)
    | Promoted(who: nat, tokenHash: string, now: int)                         // PromoteToToken
    | Admitted(who: nat, token: string, now: int)                             // a reset read and accepted the token
    | PasswordSet(who: nat, token: string, newHash: string)
    | Cleared(who: nat)
    | Lapsed                                                                  // expiry took a session

  datatype State = State(site: Site, clock: int, clients: seq<Phase>, log: seq<Event>)

  /** `Account` is what registration or a password change does to the user of this email. */
  datatype Action = Arrive(email: string, r: Request) | Act(who: nat) | Wait(ms: nat) | Account(to: Option<string>)

  function Initial(account: Option<string>, clock: int): State {
    State(Site(EMPTY, account), clock, [], [])
  }

  function Noted(h: Hashing, s: State, who: nat, reply: Option<Reply>): seq<Event>
    requires who < |s.clients|
  {
    match s.clients[who]
    case IssueCode(hash) => [Issued(hash, s.clock)]
    case ReadCode(_, _) =>
      if reply.Some? && AfterStore(h, s.clients[who], reply.value).Reserve?
      then [CodeRead(who, AfterStore(h, s.clients[who], reply.value).seen.codeHash, s.clock)] else []
    case Reserve(code, _, seen) =>
      if reply.Some? && reply.value.Attempts? && 1 <= reply.value.n <= MAX_VERIFY_ATTEMPTS
      then [Compared(who, seen.codeHash, code, h.matches(seen.codeHash, code))] else []
    case Promote(generated) => [Promoted(who, h.token(generated), s.clock)]
    case ReadToken(token, _) =>
      if reply.Some? && reply.value.Found? && TokenFits(h, reply.value.session, token)
      then [Admitted(who, token, s.clock)] else []
    case SetPassword(token, newHash) => [PasswordSet(who, token, newHash)]
    case CleanUp => [Cleared(who)]
    case _ => []
  }

  function Next(h: Hashing, bounds: Bounds, s: State, a: Action): State {
    match a
    case Arrive(email, r) => s.(clients := s.clients + [FirstPhase(email, r)])
    case Act(who) =>
      if who >= |s.clients| || s.clients[who].Done? then s
      else
        var p := s.clients[who];
        var (site, next) := StepPhase(h, s.site, s.clock, p);
        var op := StoreOp(h, p);
        var reply := if op.Some? then Some(SlotOp(s.site.slot, op.value, s.clock).1) else None;
        State(site, s.clock, s.clients[who := next], s.log + Noted(h, s, who, reply))
    case Wait(ms) =>
      var slot := Expired(s.site.slot, bounds, s.clock + ms);
      s.(site := s.site.(slot := slot), clock := s.clock + ms,
         log := s.log + if s.site.slot.session.Some? && slot.session == None then [Lapsed] else [])
    case Account(to) => s.(site := s.site.(account := to))
  }

  function Exec(h: Hashing, bounds: Bounds, s: State, actions: seq<Action>): State {
    if actions == [] then s else Next(h, bounds, Exec(h, bounds, s, Init(actions)), Last(actions))
  }

  // ---------------------------------------------------------------- reading the log

  /** The events that end one life of the session and may begin another. */
  predicate Turns(e: Event) {
    e.Issued? || e.Promoted? || e.Cleared? || e.Lapsed?
  }

  /** The last of them. */
  function Latest(log: seq<Event>): Option<Event> {
    if log == [] then None else if Turns(Last(log)) then Some(Last(log)) else Latest(Init(log))
  }

  /** Comparisons since then. */
  function Charged(log: seq<Event>): nat {
    if log == [] || Turns(Last(log)) then 0
    else Charged(Init(log)) + (if Last(log).Compared? then 1 else 0)
  }

  predicate CodeWasRead(log: seq<Event>, who: nat, hash: string) {
    exists i :: 0 <= i < |log| && log[i].CodeRead? && log[i].who == who && log[i].hash == hash
  }

  predicate GuessWasRight(h: Hashing, log: seq<Event>, who: nat) {
    exists i :: 0 <= i < |log| && log[i].Compared? && log[i].who == who && log[i].matched
  }

  predicate TokenWasAdmitted(log: seq<Event>, who: nat, token: string) {
    exists i :: 0 <= i < |log| && log[i].Admitted? && log[i].who == who && log[i].token == token
  }

  /** What must have happened before each event. */
  predicate Justified(h: Hashing, bounds: Bounds, before: seq<Event>, e: Event) {
    match e
    case CodeRead(_, hash, now) =>
      && hash != "" && Latest(before).Some? && Latest(before).value.Issued?
      && Latest(before).value.hash == hash
      && Alive(bounds.session, now, Latest(before).value.now + CODE_TTL)
    case Compared(who, hash, code, matched) =>
      && matched == h.matches(hash, code)
      && CodeWasRead(before, who, hash) && Charged(before) < MAX_VERIFY_ATTEMPTS
    case Promoted(who, _, _) => GuessWasRight(h, before, who)
    case Admitted(_, token, now) =>
      && Latest(before).Some? && Latest(before).value.Promoted?
      && Latest(before).value.tokenHash == h.token(token)
      && Alive(bounds.session, now, Latest(before).value.now + CODE_TTL)
    case PasswordSet(who, token, _) => TokenWasAdmitted(before, who, token)
    case _ => true
  }

  predicate AllJustified(h: Hashing, bounds: Bounds, log: seq<Event>) {
    log == [] || (AllJustified(h, bounds, Init(log)) && Justified(h, bounds, Init(log), Last(log)))
  }

  // ---------------------------------------------------------------- the invariant

  /** The stored session is the one the log says was last written. */
  predicate SessionMatches(bounds: Bounds, s: State) {
    match s.site.slot.session
    case None => Latest(s.log) == None || Latest(s.log).value.Cleared? || Latest(s.log).value.Lapsed?
    case Some(t) =>
      && Alive(bounds.session, s.clock, t.expiresAt)
      && SessionOk(t.session)
      && Charged(s.log) <= t.session.attempts
      && Latest(s.log).Some?
      && match Latest(s.log).value
         case Issued(hash, now) => t.session.codeHash == hash && t.session.tokenHash == "" && t.expiresAt == now + CODE_TTL
         case Promoted(_, hash, now) => t.session.codeHash == "" && t.session.tokenHash == hash && t.expiresAt == now + CODE_TTL
         case _ => false
  }

  predicate Matched(bounds: Bounds, s: State) {
    SessionMatches(bounds, s) && (s.site.slot.session == None ==> Charged(s.log) == 0)
  }

  predicate ClientOk(h: Hashing, log: seq<Event>, who: nat, p: Phase) {
    match p
    case Reserve(_, _, seen) => CodeWasRead(log, who, seen.codeHash)
    case Promote(_) => GuessWasRight(h, log, who)
    case FindUser(token, _) => TokenWasAdmitted(log, who, token)
    case SetPassword(token, _) => TokenWasAdmitted(log, who, token)
    case _ => true
  }

  predicate Inv(h: Hashing, bounds: Bounds, s: State) {
    && Matched(bounds, s)
    && AllJustified(h, bounds, s.log)
    && forall i :: 0 <= i < |s.clients| ==> ClientOk(h, s.log, i, s.clients[i])
  }

  lemma LogGrows(h: Hashing, log: seq<Event>, more: seq<Event>, who: nat, p: Phase)
    requires ClientOk(h, log, who, p)
    ensures ClientOk(h, log + more, who, p)
  {
    assert forall i :: 0 <= i < |log| ==> (log + more)[i] == log[i];
  }

  lemma Logged(log: seq<Event>, e: Event)
    ensures Init(log + [e]) == log && Last(log + [e]) == e && (log + [e])[|log|] == e
  {
  }

  /** A step logs at most one event. */
  function Added(h: Hashing, bounds: Bounds, s: State, who: nat): (more: seq<Event>)
    requires who < |s.clients| && !s.clients[who].Done?
    ensures |more| <= 1 && Next(h, bounds, s, Act(who)).log == s.log + more
  {
    Next(h, bounds, s, Act(who)).log[|s.log|..]
  }

  /** An attempt is counted before the comparison is charged. */
  lemma ReserveMatches(h: Hashing, bounds: Bounds, s: State, who: nat)
    requires Inv(h, bounds, s) && who < |s.clients| && s.clients[who].Reserve?
    ensures Matched(bounds, Next(h, bounds, s, Act(who)))
  {
    hide AllJustified, ClientOk;
    var more := Added(h, bounds, s, who);
    if more == [] { assert s.log + more == s.log; } else { Logged(s.log, more[0]); assert more == [more[0]]; }
  }

  /** A write starts a new life of the session. */
  lemma WriteMatches(h: Hashing, bounds: Bounds, s: State, who: nat)
    requires Inv(h, bounds, s) && who < |s.clients|
    requires s.clients[who].IssueCode? || s.clients[who].Promote? || s.clients[who].CleanUp?
    ensures Matched(bounds, Next(h, bounds, s, Act(who)))
  {
    hide AllJustified, ClientOk, Latest, Charged;
    var more := Added(h, bounds, s, who);
    assert more == [more[0]];
    NewLife(s.log, more[0]);
  }

  lemma NewLife(log: seq<Event>, e: Event)
    requires Turns(e)
    ensures Latest(log + [e]) == Some(e) && Charged(log + [e]) == 0
  {
    Logged(log, e);
  }

  /** Everything else leaves session and charges alone. */
  lemma OthersMatch(h: Hashing, bounds: Bounds, s: State, who: nat)
    requires Inv(h, bounds, s) && who < |s.clients| && !s.clients[who].Done? && !s.clients[who].Reserve?
    requires !s.clients[who].IssueCode? && !s.clients[who].Promote? && !s.clients[who].CleanUp?
    ensures Matched(bounds, Next(h, bounds, s, Act(who)))
  {
    hide AllJustified, ClientOk, Latest, Charged, SessionMatches;
    var t, more := Next(h, bounds, s, Act(who)), Added(h, bounds, s, who);
    assert t.site.slot.session == s.site.slot.session && t.clock == s.clock;
    if more == [] { assert s.log + more == s.log; } else { assert more == [more[0]]; SameLife(s.log, more[0]); }
    SessionMatchesAlike(bounds, s, t);
  }

  lemma SameLife(log: seq<Event>, e: Event)
    requires !Turns(e) && !e.Compared?
    ensures Latest(log + [e]) == Latest(log) && Charged(log + [e]) == Charged(log)
  {
    Logged(log, e);
  }

  lemma SessionMatchesAlike(bounds: Bounds, s: State, t: State)
    requires SessionMatches(bounds, s) && t.site.slot.session == s.site.slot.session && t.clock == s.clock
    requires Latest(t.log) == Latest(s.log) && Charged(t.log) == Charged(s.log)
    ensures SessionMatches(bounds, t)
  {
  }

  lemma ActMatches(h: Hashing, bounds: Bounds, s: State, who: nat)
    requires Inv(h, bounds, s) && who < |s.clients| && !s.clients[who].Done?
    ensures Matched(bounds, Next(h, bounds, s, Act(who)))
  {
    hide Matched, Inv, Next;
    var p := s.clients[who];
    if p.Reserve? {
      ReserveMatches(h, bounds, s, who);
    } else if p.IssueCode? || p.Promote? || p.CleanUp? {
      WriteMatches(h, bounds, s, who);
    } else {
      OthersMatch(h, bounds, s, who);
    }
  }

  lemma ActJustified(h: Hashing, bounds: Bounds, s: State, who: nat)
    requires Inv(h, bounds, s) && who < |s.clients| && !s.clients[who].Done?
    ensures AllJustified(h, bounds, Next(h, bounds, s, Act(who)).log)
  {
    hide CodeWasRead, GuessWasRight, TokenWasAdmitted;
    var more := Added(h, bounds, s, who);
    assert ClientOk(h, s.log, who, s.clients[who]);
    if more == [] { assert s.log + more == s.log; } else { Logged(s.log, more[0]); assert more == [more[0]]; }
  }

  lemma ActKnows(h: Hashing, bounds: Bounds, s: State, who: nat)
    requires Inv(h, bounds, s) && who < |s.clients| && !s.clients[who].Done?
    ensures var t := Next(h, bounds, s, Act(who)); ClientOk(h, t.log, who, t.clients[who])
  {
    hide AllJustified, Latest, Charged;
    var p, more := s.clients[who], Added(h, bounds, s, who);
    assert ClientOk(h, s.log, who, p);
    LogGrows(h, s.log, more, who, p);
    if more != [] { Logged(s.log, more[0]); assert more == [more[0]]; }
  }

  lemma ActKeepsInv(h: Hashing, bounds: Bounds, s: State, who: nat)
    requires Inv(h, bounds, s)
    ensures Inv(h, bounds, Next(h, bounds, s, Act(who)))
  {
    if who < |s.clients| && !s.clients[who].Done? {
      var t, more := Next(h, bounds, s, Act(who)), Added(h, bounds, s, who);
      ActMatches(h, bounds, s, who);
      ActJustified(h, bounds, s, who);
      ActKnows(h, bounds, s, who);
      hide Matched, AllJustified, ClientOk, StepPhase, Noted;
      forall i | 0 <= i < |t.clients| ensures ClientOk(h, t.log, i, t.clients[i]) {
        if i != who { LogGrows(h, s.log, more, i, s.clients[i]); }
      }
    }
  }

  lemma WaitKeepsInv(h: Hashing, bounds: Bounds, s: State, ms: nat)
    requires Inv(h, bounds, s)
    ensures Inv(h, bounds, Next(h, bounds, s, Wait(ms)))
  {
    hide ClientOk;
    var t := Next(h, bounds, s, Wait(ms));
    if t.log == s.log {
    } else {
      Logged(s.log, Lapsed);
      assert t.log == s.log + [Lapsed];
      forall i | 0 <= i < |t.clients| ensures ClientOk(h, t.log, i, t.clients[i]) {
        LogGrows(h, s.log, [Lapsed], i, s.clients[i]);
      }
    }
  }

  lemma NextKeepsInv(h: Hashing, bounds: Bounds, s: State, a: Action)
    requires Inv(h, bounds, s)
    ensures Inv(h, bounds, Next(h, bounds, s, a))
  {
    match a
    case Act(who) => ActKeepsInv(h, bounds, s, who);
    case Wait(ms) => WaitKeepsInv(h, bounds, s, ms);
    case Arrive(_, _) =>
    case Account(_) =>
  }

  lemma {:induction false} ExecKeepsInv(h: Hashing, bounds: Bounds, account: Option<string>, clock: int, actions: seq<Action>)
    ensures Inv(h, bounds, Exec(h, bounds, Initial(account, clock), actions))
  {
    if actions != [] {
      ExecKeepsInv(h, bounds, account, clock, Init(actions));
      NextKeepsInv(h, bounds, Exec(h, bounds, Initial(account, clock), Init(actions)), Last(actions));
    }
  }

  // ---------------------------------------------------------------- termination

  /** How many operations request i made in a run. */
  function Operations(h: Hashing, bounds: Bounds, s: State, actions: seq<Action>, i: nat): nat {
    if actions == [] then 0
    else
      var t := Exec(h, bounds, s, Init(actions));
      Operations(h, bounds, s, Init(actions), i)
        + (if Last(actions) == Act(i) && i < |t.clients| && !t.clients[i].Done? then 1 else 0)
  }

  lemma FuelLasts(p: Phase)
    ensures Fuel(p) <= 4 && (Fuel(p) == 0 <==> p.Done?)
  {
  }

  /** What one action does to the request with number i. */
  lemma NextBurnsFuel(h: Hashing, bounds: Bounds, s: State, a: Action, i: nat)
    ensures var t := Next(h, bounds, s, a);
      && |t.clients| >= |s.clients|
      && (i < |s.clients| ==>
            if a == Act(i) && !s.clients[i].Done? then Fuel(t.clients[i]) < Fuel(s.clients[i])
            else t.clients[i] == s.clients[i])
  {
    hide StepPhase, Noted, Expired, Fuel;
    if i < |s.clients| && !s.clients[i].Done? {
      StepBurnsFuel(h, s.site, s.clock, s.clients[i]);
    }
  }

  /** Every request ends, whatever the others do: it makes at most four operations, and an unfinished one
      always has an operation left to make. */
  lemma {:induction false} RequestsEnd(h: Hashing, bounds: Bounds, account: Option<string>, clock: int, actions: seq<Action>, i: nat)
    ensures var s := Initial(account, clock);
      var t, n := Exec(h, bounds, s, actions), Operations(h, bounds, s, actions, i);
      if i < |t.clients| then n + Fuel(t.clients[i]) <= 4 && (Fuel(t.clients[i]) == 0 <==> t.clients[i].Done?) else n == 0
  {
    hide Fuel;
    var u := Exec(h, bounds, Initial(account, clock), actions);
    if i < |u.clients| { FuelLasts(u.clients[i]); }
    if actions != [] {
      RequestsEnd(h, bounds, account, clock, Init(actions), i);
      var t := Exec(h, bounds, Initial(account, clock), Init(actions));
      NextBurnsFuel(h, bounds, t, Last(actions), i);
    }
  }
}
