/** What holds of every run of the password-reset protocol, and where its guarantees end. */
module ResetSafety {
  import opened Seqs
  import opened ResetStore
  import opened ResetHandlers
  import opened ResetProtocol

  function LogOf(h: Hashing, bounds: Bounds, account: Option<string>, clock: int, actions: seq<Action>): seq<Event> {
    Exec(h, bounds, Initial(account, clock), actions).log
  }

  lemma {:induction false} JustifiedAt(h: Hashing, bounds: Bounds, log: seq<Event>, j: nat)
    requires AllJustified(h, bounds, log) && j < |log|
    ensures Justified(h, bounds, log[..j], log[j])
  {
    if j == |log| - 1 {
      assert log[..j] == Init(log);
    } else {
      JustifiedAt(h, bounds, Init(log), j);
      assert Init(log)[..j] == log[..j];
    }
  }

  // ---------------------------------------------------------------- the attempt limit

  function Comparisons(log: seq<Event>): nat {
    if log == [] then 0 else Comparisons(Init(log)) + (if Last(log).Compared? then 1 else 0)
  }

  lemma {:induction false} ComparisonsAreCharged(log: seq<Event>, i: nat)
    requires i <= |log| && forall k :: i <= k < |log| ==> !Turns(log[k])
    ensures Comparisons(log[i..]) <= Charged(log)
  {
    if i < |log| {
      assert Init(log[i..]) == Init(log)[i..];
      assert Last(log[i..]) == Last(log) == log[|log| - 1];
      ComparisonsAreCharged(Init(log), i);
    }
  }

  lemma {:induction false} NeverOvercharged(h: Hashing, bounds: Bounds, log: seq<Event>)
    requires AllJustified(h, bounds, log)
    ensures Charged(log) <= MAX_VERIFY_ATTEMPTS
  {
    if log != [] {
      NeverOvercharged(h, bounds, Init(log));
    }
  }

  lemma {:induction false} PrefixJustified(h: Hashing, bounds: Bounds, log: seq<Event>, j: nat)
    requires AllJustified(h, bounds, log) && j <= |log|
    ensures AllJustified(h, bounds, log[..j])
  {
    if j < |log| {
      PrefixJustified(h, bounds, Init(log), j);
      assert Init(log)[..j] == log[..j];
    } else {
      assert log[..j] == log;
    }
  }

  /** However the requests interleave, at most five comparisons take place between two successive events
      that write, promote, clear or expire the session. */
  lemma AtMostFiveComparisons(h: Hashing, bounds: Bounds, account: Option<string>, clock: int,
      actions: seq<Action>, i: nat, j: nat)
    requires var log := LogOf(h, bounds, account, clock, actions);
      i <= j <= |log| && forall k :: i <= k < j ==> !Turns(log[k])
    ensures Comparisons(LogOf(h, bounds, account, clock, actions)[i..j]) <= 5
  {
    ExecKeepsInv(h, bounds, account, clock, actions);
    var log := LogOf(h, bounds, account, clock, actions);
    PrefixJustified(h, bounds, log, j);
    NeverOvercharged(h, bounds, log[..j]);
    ComparisonsAreCharged(log[..j], i);
    assert log[..j][i..] == log[i..j];
  }

  // ---------------------------------------------------------------- what a password reset rests on

  lemma {:induction false} LatestIsLast(log: seq<Event>) returns (p: nat)
    requires Latest(log).Some?
    ensures p < |log| && log[p] == Latest(log).value && Turns(log[p])
    ensures forall k :: p < k < |log| ==> !Turns(log[k])
  {
    if Turns(Last(log)) {
      p := |log| - 1;
    } else {
      p := LatestIsLast(Init(log));
      assert forall k :: 0 <= k < |Init(log)| ==> log[k] == Init(log)[k];
    }
  }

  /** The token read at `a` is the one promoted at `p`: nothing wrote, cleared or expired the session in
      between. */
  predicate Current(h: Hashing, bounds: Bounds, log: seq<Event>, p: int, a: int) {
    && 0 <= p < a < |log| && log[p].Promoted? && log[a].Admitted?
    && log[p].tokenHash == h.token(log[a].token)
    && Alive(bounds.session, log[a].now, log[p].now + CODE_TTL)
    && forall k :: p < k < a ==> !Turns(log[k])
  }

  lemma AdmittedTokenIsCurrent(h: Hashing, bounds: Bounds, log: seq<Event>, a: nat) returns (p: nat)
    requires AllJustified(h, bounds, log) && a < |log| && log[a].Admitted?
    ensures Current(h, bounds, log, p, a)
  {
    JustifiedAt(h, bounds, log, a);
    p := LatestIsLast(log[..a]);
    assert forall k :: 0 <= k < a ==> log[..a][k] == log[k];
  }

  /** The code read at `r` is the one issued at `d`: it had not run out, and nothing had replaced, exchanged
      or cleared it. */
  predicate Pended(bounds: Bounds, log: seq<Event>, d: int, r: int) {
    && 0 <= d < r < |log| && log[d].Issued? && log[r].CodeRead?
    && log[r].hash == log[d].hash
    && Alive(bounds.session, log[r].now, log[d].now + CODE_TTL)
    && forall k :: d < k < r ==> !Turns(log[k])
  }

  lemma ReadCodeIsPending(h: Hashing, bounds: Bounds, log: seq<Event>, r: nat) returns (d: nat)
    requires AllJustified(h, bounds, log) && r < |log| && log[r].CodeRead?
    ensures Pended(bounds, log, d, r)
  {
    JustifiedAt(h, bounds, log, r);
    d := LatestIsLast(log[..r]);
    assert forall k :: 0 <= k < r ==> log[..r][k] == log[k];
  }

  /** The comparison at `c` is with the code that the same request read at `r`. */
  predicate ComparedWith(log: seq<Event>, r: int, c: int) {
    && 0 <= r < c < |log| && log[r].CodeRead? && log[c].Compared?
    && log[r].who == log[c].who && log[r].hash == log[c].hash
  }

  lemma ComparisonHasRead(h: Hashing, bounds: Bounds, log: seq<Event>, c: nat) returns (r: nat)
    requires AllJustified(h, bounds, log) && c < |log| && log[c].Compared?
    ensures ComparedWith(log, r, c) && log[c].matched == h.matches(log[c].hash, log[c].code)
  {
    JustifiedAt(h, bounds, log, c);
    assert Justified(h, bounds, log[..c], log[c]);
    r :| 0 <= r < c && log[..c][r].CodeRead? && log[..c][r].who == log[c].who && log[..c][r].hash == log[c].hash;
  }

  /** The client promoting at `p` read the code issued at `d` at `r` and found it right at `c`. */
  predicate Earned(h: Hashing, bounds: Bounds, log: seq<Event>, d: int, r: int, c: int, p: int) {
    && Pended(bounds, log, d, r) && ComparedWith(log, r, c) && c < p < |log| && log[p].Promoted?
    && log[p].who == log[c].who && h.matches(log[d].hash, log[c].code)
  }

  lemma PromotionIsEarned(h: Hashing, bounds: Bounds, log: seq<Event>, p: nat) returns (d: nat, r: nat, c: nat)
    requires AllJustified(h, bounds, log) && p < |log| && log[p].Promoted?
    ensures Earned(h, bounds, log, d, r, c, p)
  {
    JustifiedAt(h, bounds, log, p);
    c :| 0 <= c < p && log[..p][c].Compared? && log[..p][c].who == log[p].who && log[..p][c].matched;
    r := ComparisonHasRead(h, bounds, log, c);
    d := ReadCodeIsPending(h, bounds, log, r);
  }

  /** Every password reset of a run goes back to a token read by the same request, to the promotion that
      was current then, to a matching comparison by the promoting request, to its read of the code, and to
      the issue of the code that was pending at that read. */
  lemma PasswordResetIsBacked(h: Hashing, bounds: Bounds, account: Option<string>, clock: int, actions: seq<Action>, j: nat)
    requires var log := LogOf(h, bounds, account, clock, actions); j < |log| && log[j].PasswordSet?
    ensures var log := LogOf(h, bounds, account, clock, actions);
      exists d, r, c, p, a ::
        && a < j && Current(h, bounds, log, p, a) && Earned(h, bounds, log, d, r, c, p)
        && log[a].who == log[j].who && log[a].token == log[j].token
  {
    ExecKeepsInv(h, bounds, account, clock, actions);
    var log := LogOf(h, bounds, account, clock, actions);
    JustifiedAt(h, bounds, log, j);
    var a :| 0 <= a < j && log[..j][a].Admitted? && log[..j][a].who == log[j].who && log[..j][a].token == log[j].token;
    var p := AdmittedTokenIsCurrent(h, bounds, log, a);
    var d, r, c := PromotionIsEarned(h, bounds, log, p);
  }

  /** Single use: once a reset has cleared the session, a token is accepted again only after a new
      promotion, and for that a code must have been issued after the clear, unless the promoting request
      had read its code before it. */
  lemma ClearedTokenNeedsANewPromotion(h: Hashing, bounds: Bounds, account: Option<string>, clock: int,
      actions: seq<Action>, i: nat, a: nat)
    requires var log := LogOf(h, bounds, account, clock, actions);
      i < a < |log| && log[i].Cleared? && log[a].Admitted?
    ensures var log := LogOf(h, bounds, account, clock, actions);
      exists d, r, c, p ::
        i < p && Current(h, bounds, log, p, a) && Earned(h, bounds, log, d, r, c, p) && (r < i || i < d)
  {
    ExecKeepsInv(h, bounds, account, clock, actions);
    var log := LogOf(h, bounds, account, clock, actions);
    var p := AdmittedTokenIsCurrent(h, bounds, log, a);
    var d, r, c := PromotionIsEarned(h, bounds, log, p);
    assert Turns(log[i]);
  }

  // ---------------------------------------------------------------- one code, one token

  /** Whether the session did not turn between two places of the log, in either order. */
  predicate SameLifeAt(log: seq<Event>, r: int, q: int) {
    forall k :: 0 <= k < |log| && (r < k < q || q < k < r) ==> !Turns(log[k])
  }

  /** Two reads find the same issued code exactly if the session did not turn between them. */
  lemma SameCode(bounds: Bounds, log: seq<Event>, d: int, r: int, e: int, q: int)
    requires Pended(bounds, log, d, r) && Pended(bounds, log, e, q)
    ensures d == e <==> SameLifeAt(log, r, q)
  {
    if d < e { assert Turns(log[e]); }
    if e < d { assert Turns(log[d]); }
  }

  /** Any two promotions of a run rest each on a code that was pending when the promoting request read
      it. It is one and the same code exactly if the session did not turn between the two reads, and then
      the two requests overlapped: both had read it before either promoted. A request that reads after a
      promotion needs a code issued after it. */
  lemma OneTokenPerCode(h: Hashing, bounds: Bounds, account: Option<string>, clock: int, actions: seq<Action>, p: nat, p': nat)
    requires var log := LogOf(h, bounds, account, clock, actions);
      p < p' < |log| && log[p].Promoted? && log[p'].Promoted?
    ensures var log := LogOf(h, bounds, account, clock, actions);
      exists d, r, c, d', r', c' ::
        && Earned(h, bounds, log, d, r, c, p) && Earned(h, bounds, log, d', r', c', p')
        && (d == d' <==> SameLifeAt(log, r, r'))
        && (d == d' ==> r' < p)
        && (r' < p || p < d')
  {
    ExecKeepsInv(h, bounds, account, clock, actions);
    var log := LogOf(h, bounds, account, clock, actions);
    var d, r, c := PromotionIsEarned(h, bounds, log, p);
    var d', r', c' := PromotionIsEarned(h, bounds, log, p');
    SameCode(bounds, log, d, r, d', r');
    assert Turns(log[p]);
  }

  /** How far a verification has come: it reads, compares, promotes. */
  function Stage(p: Phase): nat {
    match p case ReadCode(_, _) => 0 case Reserve(_, _, _) => 1 case Promote(_) => 2 case _ => 3
  }

  /** The trace that stage k of request i leaves. */
  predicate IsTrace(e: Event, i: nat, k: nat) {
    match e
    case CodeRead(who, _, _) => who == i && k == 0
    case Compared(who, _, _, _) => who == i && k == 1
    case Promoted(who, _, _) => who == i && k == 2
    case _ => false
  }

  function Traces(log: seq<Event>, i: nat, k: nat): nat {
    if log == [] then 0 else Traces(Init(log), i, k) + (if IsTrace(Last(log), i, k) then 1 else 0)
  }

  /** At most one trace of each stage that is over, none of the stages to come. */
  ghost predicate TracesFit(s: State) {
    forall i: nat, k: nat :: Traces(s.log, i, k) <= if i < |s.clients| && k < Stage(s.clients[i]) then 1 else 0
  }

  /** A step leaves the trace of the acting request's stage or none, and a stage that leaves its trace is over. */
  lemma StageMovesOn(h: Hashing, bounds: Bounds, s: State, who: nat)
    requires who < |s.clients| && !s.clients[who].Done?
    ensures var t, more, stage := Next(h, bounds, s, Act(who)), Added(h, bounds, s, who), Stage(s.clients[who]);
      && stage <= Stage(t.clients[who])
      && forall e, i: nat, k: nat :: e in more && IsTrace(e, i, k) ==> i == who && k == stage < Stage(t.clients[who])
  {
    var more := Added(h, bounds, s, who);
    if more != [] { Logged(s.log, more[0]); assert more == [more[0]]; }
  }

  lemma ActFits(h: Hashing, bounds: Bounds, s: State, who: nat)
    requires TracesFit(s) && who < |s.clients| && !s.clients[who].Done?
    ensures TracesFit(Next(h, bounds, s, Act(who)))
  {
    var more := Added(h, bounds, s, who);
    StageMovesOn(h, bounds, s, who);
    if more == [] { assert s.log + more == s.log; } else { Logged(s.log, more[0]); assert more == [more[0]]; }
    hide StepPhase, Noted, Stage, IsTrace;
    var t := Next(h, bounds, s, Act(who));
    forall i: nat, k: nat
      ensures Traces(t.log, i, k) <= if i < |t.clients| && k < Stage(t.clients[i]) then 1 else 0
    {
      assert Traces(s.log, i, k) <= if i < |s.clients| && k < Stage(s.clients[i]) then 1 else 0;
      if more != [] { assert Traces(t.log, i, k) == Traces(s.log, i, k) + if IsTrace(more[0], i, k) then 1 else 0; }
    }
  }

  lemma {:induction false} TracesAlwaysFit(h: Hashing, bounds: Bounds, account: Option<string>, clock: int, actions: seq<Action>)
    ensures TracesFit(Exec(h, bounds, Initial(account, clock), actions))
  {
    if actions != [] {
      TracesAlwaysFit(h, bounds, account, clock, Init(actions));
      var s, a := Exec(h, bounds, Initial(account, clock), Init(actions)), Last(actions);
      match a
      case Act(who) => if who < |s.clients| && !s.clients[who].Done? { ActFits(h, bounds, s, who); }
      case Wait(ms) => if s.log != Next(h, bounds, s, a).log { Logged(s.log, Lapsed); }
      case _ =>
    }
  }

  lemma {:induction false} TwoTraces(log: seq<Event>, i: nat, k: nat, m: nat, n: nat)
    requires m < n < |log| && IsTrace(log[m], i, k) && IsTrace(log[n], i, k)
    ensures Traces(log, i, k) >= 2
  {
    if n == |log| - 1 {
      OneTrace(Init(log), i, k, m);
    } else {
      TwoTraces(Init(log), i, k, m, n);
    }
  }

  lemma {:induction false} OneTrace(log: seq<Event>, i: nat, k: nat, m: nat)
    requires m < |log| && IsTrace(log[m], i, k)
    ensures Traces(log, i, k) >= 1
  {
    if m < |log| - 1 {
      OneTrace(Init(log), i, k, m);
    }
  }

  lemma SameTrace(log: seq<Event>, i: nat, k: nat, m: nat, n: nat)
    requires m < |log| && n < |log| && IsTrace(log[m], i, k) && IsTrace(log[n], i, k) && Traces(log, i, k) <= 1
    ensures m == n
  {
    if m < n { TwoTraces(log, i, k, m, n); }
    if n < m { TwoTraces(log, i, k, n, m); }
  }

  /** A request earns at most one token, and from one code only. */
  lemma OneTokenPerRequest(h: Hashing, bounds: Bounds, account: Option<string>, clock: int, actions: seq<Action>,
      d: int, r: int, c: int, p: int, d': int, r': int, c': int, p': int)
    requires var log := LogOf(h, bounds, account, clock, actions);
      && Earned(h, bounds, log, d, r, c, p) && Earned(h, bounds, log, d', r', c', p')
      && log[p].who == log[p'].who
    ensures d == d' && r == r' && c == c' && p == p'
  {
    TracesAlwaysFit(h, bounds, account, clock, actions);
    var log := LogOf(h, bounds, account, clock, actions);
    var i := log[p].who;
    SameTrace(log, i, 2, p, p');
    SameTrace(log, i, 1, c, c');
    SameTrace(log, i, 0, r, r');
    SameCode(bounds, log, d, r, d', r');
  }

  /** Two accepted tokens go back to the same promotion exactly if the session did not turn between the two
      reads: the request that read first had not cleared it when the other one read. */
  lemma OneResetPerPromotion(h: Hashing, bounds: Bounds, account: Option<string>, clock: int, actions: seq<Action>, a: nat, a': nat)
    requires var log := LogOf(h, bounds, account, clock, actions);
      a < a' < |log| && log[a].Admitted? && log[a'].Admitted?
    ensures var log := LogOf(h, bounds, account, clock, actions);
      exists p, p' ::
        && Current(h, bounds, log, p, a) && Current(h, bounds, log, p', a')
        && (p == p' <==> SameLifeAt(log, a, a'))
  {
    ExecKeepsInv(h, bounds, account, clock, actions);
    var log := LogOf(h, bounds, account, clock, actions);
    var p := AdmittedTokenIsCurrent(h, bounds, log, a);
    var p' := AdmittedTokenIsCurrent(h, bounds, log, a');
    assert Turns(log[p]) && Turns(log[p']);
  }

  /** Every comparison is with a code that was pending when the same request read it. Unless the session
      has turned since, it is one of at most five made while that code was pending. */
  lemma ComparisonIsChargedToItsCode(h: Hashing, bounds: Bounds, account: Option<string>, clock: int,
      actions: seq<Action>, c: nat)
    requires var log := LogOf(h, bounds, account, clock, actions); c < |log| && log[c].Compared?
    ensures var log := LogOf(h, bounds, account, clock, actions);
      exists d, r ::
        && Pended(bounds, log, d, r) && ComparedWith(log, r, c)
        && (Comparisons(log[d + 1..c + 1]) <= 5 || !SameLifeAt(log, r, c))
  {
    ExecKeepsInv(h, bounds, account, clock, actions);
    var log := LogOf(h, bounds, account, clock, actions);
    var r := ComparisonHasRead(h, bounds, log, c);
    var d := ReadCodeIsPending(h, bounds, log, r);
    if SameLifeAt(log, r, c) {
      AtMostFiveComparisons(h, bounds, account, clock, actions, d + 1, c + 1);
    }
  }

  /** A code and a token are never both stored. */
  lemma NeverCodeAndToken(h: Hashing, bounds: Bounds, account: Option<string>, clock: int, actions: seq<Action>)
    ensures var slot := Exec(h, bounds, Initial(account, clock), actions).site.slot;
      slot.session.Some? ==> SessionOk(slot.session.value.session)
  {
    ExecKeepsInv(h, bounds, account, clock, actions);
  }

  /** No request touches the password but a reset that got past its token check. */
  lemma OnlyResetsChangeThePassword(h: Hashing, bounds: Bounds, s: State, who: nat)
    requires Inv(h, bounds, s)
    ensures var t := Next(h, bounds, s, Act(who));
      t.site.account != s.site.account ==>
        && |t.log| == |s.log| + 1 && Last(t.log).PasswordSet? && Last(t.log).who == who
        && t.site.account == Some(Last(t.log).newHash)
        && TokenWasAdmitted(s.log, who, Last(t.log).token)
  {
    if who < |s.clients| {
      assert ClientOk(h, s.log, who, s.clients[who]);
    }
  }

  // ---------------------------------------------------------------- where the guarantees end

  /** Requests i and j take one step each. */
  function Both(h: Hashing, bounds: Bounds, s: State, i: nat, j: nat): State {
    Next(h, bounds, Next(h, bounds, s, Act(i)), Act(j))
  }

  predicate Waiting(s: State, i: nat, j: nat) {
    i < |s.clients| && j < |s.clients| && i != j
  }

  lemma BothAdmitted(h: Hashing, bounds: Bounds, s: State, i: nat, j: nat)
    requires Waiting(s, i, j) && s.clients[i].ReadToken? && s.clients[j].ReadToken?
    requires s.clients[j].token == s.clients[i].token
    requires TokenFits(h, SlotOp(s.site.slot, Get, s.clock).1.session, s.clients[i].token)
    ensures var t, p, q := Both(h, bounds, s, i, j), s.clients[i], s.clients[j];
      && t.site == s.site
      && t.clients == s.clients[i := FindUser(p.token, p.newHash)][j := FindUser(q.token, q.newHash)]
      && t.log == s.log + [Admitted(i, p.token, s.clock), Admitted(j, q.token, s.clock)]
  {
  }

  lemma BothProceed(h: Hashing, bounds: Bounds, s: State, i: nat, j: nat)
    requires Waiting(s, i, j) && s.site.account.Some? && s.clients[i].FindUser? && s.clients[j].FindUser?
    ensures var t, p, q := Both(h, bounds, s, i, j), s.clients[i], s.clients[j];
      && t.site == s.site && t.log == s.log
      && t.clients == s.clients[i := SetPassword(p.token, p.newHash)][j := SetPassword(q.token, q.newHash)]
  {
  }

  /** Two resets that both read the token before either clears it both set the password: the token is
      used twice without a new promotion. */
  lemma OverlappingResetsBothPass(h: Hashing, bounds: Bounds, s: State, i: nat, j: nat)
    requires Waiting(s, i, j) && s.clients[i].ReadToken? && s.clients[j].ReadToken?
    requires s.site.account.Some? && s.clients[j].token == s.clients[i].token
    requires TokenFits(h, SlotOp(s.site.slot, Get, s.clock).1.session, s.clients[i].token)
    ensures var token := s.clients[i].token;
      Both(h, bounds, Both(h, bounds, Both(h, bounds, s, i, j), i, j), i, j).log ==
        s.log + [Admitted(i, token, s.clock), Admitted(j, token, s.clock),
                 PasswordSet(i, token, s.clients[i].newHash), PasswordSet(j, token, s.clients[j].newHash)]
  {
    var t := Both(h, bounds, s, i, j);
    BothAdmitted(h, bounds, s, i, j);
    BothProceed(h, bounds, t, i, j);
    var u := Both(h, bounds, t, i, j);
    assert Both(h, bounds, u, i, j).log ==
           u.log + [PasswordSet(i, s.clients[i].token, s.clients[i].newHash)]
             + [PasswordSet(j, s.clients[j].token, s.clients[j].newHash)];
  }

  lemma BothReadCode(h: Hashing, bounds: Bounds, s: State, i: nat, j: nat)
    requires Waiting(s, i, j) && s.clients[i].ReadCode? && s.clients[j].ReadCode? && Pending(s.site.slot)
    ensures var t, p, q, seen := Both(h, bounds, s, i, j), s.clients[i], s.clients[j], s.site.slot.session.value.session;
      && t.site == s.site && t.clock == s.clock
      && t.clients == s.clients[i := Reserve(p.code, p.generated, seen)][j := Reserve(q.code, q.generated, seen)]
      && t.log == s.log + [CodeRead(i, seen.codeHash, s.clock), CodeRead(j, seen.codeHash, s.clock)]
  {
  }

  lemma BothGuessRight(h: Hashing, bounds: Bounds, s: State, i: nat, j: nat)
    requires Waiting(s, i, j) && s.clients[i].Reserve? && s.clients[j].Reserve?
    requires s.site.slot.session.Some? && 0 <= s.site.slot.session.value.session.attempts <= MAX_VERIFY_ATTEMPTS - 2
    requires h.matches(s.clients[i].seen.codeHash, s.clients[i].code) && h.matches(s.clients[j].seen.codeHash, s.clients[j].code)
    ensures var t, p, q := Both(h, bounds, s, i, j), s.clients[i], s.clients[j];
      && t.clients == s.clients[i := Promote(p.generated)][j := Promote(q.generated)]
      && t.clock == s.clock && t.site.account == s.site.account
      && t.log == s.log + [Compared(i, p.seen.codeHash, p.code, true), Compared(j, q.seen.codeHash, q.code, true)]
  {
  }

  lemma BothPromote(h: Hashing, bounds: Bounds, s: State, i: nat, j: nat)
    requires Waiting(s, i, j) && s.clients[i].Promote? && s.clients[j].Promote?
    ensures var t, g, g' := Both(h, bounds, s, i, j), s.clients[i].generated, s.clients[j].generated;
      && t.clients == s.clients[i := Done(TokenIssued(g))][j := Done(TokenIssued(g'))]
      && t.log == s.log + [Promoted(i, h.token(g), s.clock), Promoted(j, h.token(g'), s.clock)]
      && SlotOp(t.site.slot, Get, s.clock).1 == Found(Some(Session("", 0, h.token(g'))))
  {
  }

  /** What two verifications log that both read the code, both find it right and both promote. */
  function TwoVerified(h: Hashing, now: int, codeHash: string, i: nat, p: Phase, j: nat, q: Phase): seq<Event>
    requires p.ReadCode? && q.ReadCode?
  {
    [CodeRead(i, codeHash, now), CodeRead(j, codeHash, now),
     Compared(i, codeHash, p.code, true), Compared(j, codeHash, q.code, true),
     Promoted(i, h.token(p.generated), now), Promoted(j, h.token(q.generated), now)]
  }

  /** Two verifications that both read the pending code before either promotes, with two attempts left,
      both get a token; only the one promoted last can be used. */
  lemma OverlappingVerificationsBothPromote(h: Hashing, bounds: Bounds, s: State, i: nat, j: nat)
    requires Waiting(s, i, j) && s.clients[i].ReadCode? && s.clients[j].ReadCode? && Pending(s.site.slot)
    requires 0 <= s.site.slot.session.value.session.attempts <= MAX_VERIFY_ATTEMPTS - 2
    requires h.matches(s.site.slot.session.value.session.codeHash, s.clients[i].code)
    requires h.matches(s.site.slot.session.value.session.codeHash, s.clients[j].code)
    ensures var t := Both(h, bounds, Both(h, bounds, Both(h, bounds, s, i, j), i, j), i, j);
      var g, g' := s.clients[i].generated, s.clients[j].generated;
      && t.clients == s.clients[i := Done(TokenIssued(g))][j := Done(TokenIssued(g'))]
      && t.log == s.log + TwoVerified(h, s.clock, s.site.slot.session.value.session.codeHash, i, s.clients[i], j, s.clients[j])
      && (h.token(g) != h.token(g') ==> !TokenFits(h, SlotOp(t.site.slot, Get, s.clock).1.session, g))
  {
    hide Both;
    var s1 := Both(h, bounds, s, i, j);
    BothReadCode(h, bounds, s, i, j);
    BothGuessRight(h, bounds, s1, i, j);
    BothPromote(h, bounds, Both(h, bounds, s1, i, j), i, j);
  }

  /** Once request i has promoted, a verification j that goes on alone still gets a token exactly if it had
      read its code before and that code fits. */
  lemma AfterAPromotion(h: Hashing, bounds: Bounds, s: State, i: nat, j: nat)
    requires Waiting(s, i, j) && s.clients[i].Promote?
    requires s.clients[j].ReadCode? || s.clients[j].Reserve? || s.clients[j].Promote?
    ensures var t, p := Next(h, bounds, s, Act(i)), s.clients[j];
      Alone(h, t.site, t.clock, t.clients[j]).1 == Done(TokenIssued(p.generated)) <==>
        !p.ReadCode? && (p.Reserve? ==> h.matches(p.seen.codeHash, p.code))
  {
    hide Alone;
    var t := Next(h, bounds, s, Act(i));
    VerificationEnds(h, t.site, t.clock, t.clients[j]);
  }

  // ---------------------------------------------------------------- ... and runs that get there

  lemma {:induction false} ExecConcat(h: Hashing, bounds: Bounds, s: State, a: seq<Action>, b: seq<Action>)
    ensures Exec(h, bounds, s, a + b) == Exec(h, bounds, Exec(h, bounds, s, a), b)
  {
    hide Next;
    if b == [] {
      assert a + b == a;
    } else {
      assert Init(a + b) == a + Init(b) && Last(a + b) == Last(b);
      ExecConcat(h, bounds, s, a, Init(b));
    }
  }

  lemma ExecOne(h: Hashing, bounds: Bounds, s: State, a: Action)
    ensures Exec(h, bounds, s, [a]) == Next(h, bounds, s, a)
  {
    assert Init([a]) == [];
  }

  /** A request can be run to its end with nothing in between. */
  lemma {:induction false} RunAlone(h: Hashing, bounds: Bounds, s: State, i: nat) returns (actions: seq<Action>)
    requires i < |s.clients|
    ensures var t, (site, p) := Exec(h, bounds, s, actions), Alone(h, s.site, s.clock, s.clients[i]);
      t.site == site && t.clock == s.clock && t.clients == s.clients[i := p]
    decreases Fuel(s.clients[i])
  {
    hide StepPhase, Noted;
    actions := [];
    if !s.clients[i].Done? {
      var t := Next(h, bounds, s, Act(i));
      StepBurnsFuel(h, s.site, s.clock, s.clients[i]);
      AloneUnrolled(h, s.site, s.clock, s.clients[i]);
      var rest := RunAlone(h, bounds, t, i);
      actions := [Act(i)] + rest;
      ExecConcat(h, bounds, s, [Act(i)], rest);
      ExecOne(h, bounds, s, Act(i));
    }
  }

  /** A request arrives and is run to its end. */
  lemma ServeAlone(h: Hashing, bounds: Bounds, s: State, email: string, r: Request) returns (actions: seq<Action>)
    ensures var t, (site, p) := Exec(h, bounds, s, actions), Alone(h, s.site, s.clock, FirstPhase(email, r));
      t.site == site && t.clock == s.clock && t.clients == s.clients + [p]
  {
    hide Alone;
    var t := Next(h, bounds, s, Arrive(email, r));
    var rest := RunAlone(h, bounds, t, |s.clients|);
    actions := [Arrive(email, r)] + rest;
    ExecConcat(h, bounds, s, [Arrive(email, r)], rest);
    ExecOne(h, bounds, s, Arrive(email, r));
  }

  /** Two requests arrive. */
  lemma TwoArrive(h: Hashing, bounds: Bounds, s: State, email: string, r: Request, q: Request) returns (actions: seq<Action>)
    ensures Exec(h, bounds, s, actions) == s.(clients := s.clients + [FirstPhase(email, r), FirstPhase(email, q)])
  {
    actions := [Arrive(email, r)] + [Arrive(email, q)];
    ExecConcat(h, bounds, s, [Arrive(email, r)], [Arrive(email, q)]);
    ExecOne(h, bounds, s, Arrive(email, r));
    ExecOne(h, bounds, Next(h, bounds, s, Arrive(email, r)), Arrive(email, q));
    assert s.clients + [FirstPhase(email, r)] + [FirstPhase(email, q)] == s.clients + [FirstPhase(email, r), FirstPhase(email, q)];
  }

  function Once(i: nat, j: nat): seq<Action> {
    [Act(i)] + [Act(j)]
  }

  lemma OnceIsBoth(h: Hashing, bounds: Bounds, s: State, i: nat, j: nat)
    ensures Exec(h, bounds, s, Once(i, j)) == Both(h, bounds, s, i, j)
  {
    hide Next;
    ExecConcat(h, bounds, s, [Act(i)], [Act(j)]);
    ExecOne(h, bounds, s, Act(i));
    ExecOne(h, bounds, Next(h, bounds, s, Act(i)), Act(j));
  }

  function Thrice(i: nat, j: nat): seq<Action> {
    Once(i, j) + Once(i, j) + Once(i, j)
  }

  lemma ThriceIsBoth(h: Hashing, bounds: Bounds, s: State, i: nat, j: nat)
    ensures Exec(h, bounds, s, Thrice(i, j)) == Both(h, bounds, Both(h, bounds, Both(h, bounds, s, i, j), i, j), i, j)
  {
    hide Next, Both, Exec;
    var s1 := Both(h, bounds, s, i, j);
    OnceIsBoth(h, bounds, s, i, j);
    OnceIsBoth(h, bounds, s1, i, j);
    OnceIsBoth(h, bounds, Both(h, bounds, s1, i, j), i, j);
    ExecConcat(h, bounds, s, Once(i, j) + Once(i, j), Once(i, j));
    ExecConcat(h, bounds, s, Once(i, j), Once(i, j));
  }

  /** From the start of any account a code gets pending. */
  lemma CodeGetsPending(h: Hashing, bounds: Bounds, s: State, email: string, codeHash: string) returns (actions: seq<Action>)
    requires email != "" && s.site.account.Some? && s.site.slot == EMPTY && codeHash != ""
    ensures var t := Exec(h, bounds, s, actions);
      && Pending(t.site.slot) && t.site.slot.session.value.session == Session(codeHash, 0, "")
      && t.site.account == s.site.account && t.clock == s.clock && |t.clients| == |s.clients| + 1
  {
    actions := ServeAlone(h, bounds, s, email, Forgot(codeHash));
    ForgotAlone(h, s.site, s.clock, email, codeHash);
  }

  /** From the start of any account two resets can use the same token. */
  lemma TokenUsedTwice(h: Hashing, bounds: Bounds, account: string, clock: int, email: string, codeHash: string, code: string,
                       token: string, first: string, second: string) returns (actions: seq<Action>)
    requires email != "" && codeHash != "" && code != "" && token != ""
    requires h.matches(codeHash, code) && h.token(token) != ""
    ensures var log := LogOf(h, bounds, Some(account), clock, actions);
      && |log| >= 4
      && log[|log| - 4..] == [Admitted(2, token, clock), Admitted(3, token, clock),
                              PasswordSet(2, token, first), PasswordSet(3, token, second)]
  {
    hide Exec, Both;
    var s := Initial(Some(account), clock);
    var a := CodeGetsPending(h, bounds, s, email, codeHash);
    var s1 := Exec(h, bounds, s, a);
    var b := ServeAlone(h, bounds, s1, email, Verify(code, token));
    VerifyAlone(h, s1.site, s1.clock, email, code, token);
    var s2 := Exec(h, bounds, s1, b);
    var c := TwoArrive(h, bounds, s2, email, Reset(token, first, true), Reset(token, second, true));
    var s3 := Exec(h, bounds, s2, c);
    OverlappingResetsBothPass(h, bounds, s3, 2, 3);
    ThriceIsBoth(h, bounds, s3, 2, 3);
    actions := a + b + c + Thrice(2, 3);
    ExecConcat(h, bounds, s, a + b + c, Thrice(2, 3));
    ExecConcat(h, bounds, s, a + b, c);
    ExecConcat(h, bounds, s, a, b);
  }

  /** From the start of any account one code can earn two tokens. */
  lemma CodeEarnsTwoTokens(h: Hashing, bounds: Bounds, account: string, clock: int, email: string, codeHash: string, code: string,
                           first: string, second: string) returns (actions: seq<Action>)
    requires email != "" && codeHash != "" && code != "" && h.matches(codeHash, code)
    ensures var s := Initial(Some(account), clock);
      var t, log := Exec(h, bounds, s, actions), LogOf(h, bounds, Some(account), clock, actions);
      && |t.clients| == 3 && t.clients[1] == Done(TokenIssued(first)) && t.clients[2] == Done(TokenIssued(second))
      && exists d, r, c, p, r', c', p' ::
           p < p' && Earned(h, bounds, log, d, r, c, p) && Earned(h, bounds, log, d, r', c', p')
  {
    hide Exec, Both;
    var s := Initial(Some(account), clock);
    var a := CodeGetsPending(h, bounds, s, email, codeHash);
    var s1 := Exec(h, bounds, s, a);
    var b := TwoArrive(h, bounds, s1, email, Verify(code, first), Verify(code, second));
    var s2 := Exec(h, bounds, s1, b);
    OverlappingVerificationsBothPromote(h, bounds, s2, 1, 2);
    ThriceIsBoth(h, bounds, s2, 1, 2);
    actions := a + b + Thrice(1, 2);
    ExecConcat(h, bounds, s, a + b, Thrice(1, 2));
    ExecConcat(h, bounds, s, a, b);
    ExecKeepsInv(h, bounds, Some(account), clock, actions);
    var d := BothFromOneCode(h, bounds, s2.log, LogOf(h, bounds, Some(account), clock, actions), clock, codeHash, 1, s2.clients[1], 2, s2.clients[2]);
  }

  lemma BothFromOneCode(h: Hashing, bounds: Bounds, before: seq<Event>, log: seq<Event>, now: int, codeHash: string,
                        i: nat, p: Phase, j: nat, q: Phase) returns (d: nat)
    requires p.ReadCode? && q.ReadCode? && h.matches(codeHash, p.code) && h.matches(codeHash, q.code)
    requires log == before + TwoVerified(h, now, codeHash, i, p, j, q) && AllJustified(h, bounds, log)
    ensures var n := |before|;
      Earned(h, bounds, log, d, n, n + 2, n + 4) && Earned(h, bounds, log, d, n + 1, n + 3, n + 5)
  {
    hide AllJustified;
    var n := |before|;
    assert log[n..] == TwoVerified(h, now, codeHash, i, p, j, q);
    assert log[n] == log[n..][0] && log[n + 1] == log[n..][1] && log[n + 2] == log[n..][2];
    assert log[n + 3] == log[n..][3] && log[n + 4] == log[n..][4] && log[n + 5] == log[n..][5];
    d := ReadCodeIsPending(h, bounds, log, n);
    var d' := ReadCodeIsPending(h, bounds, log, n + 1);
    SameCode(bounds, log, d, n, d', n + 1);
  }

  // ---------------------------------------------------------------- ... and beyond a reset

  /** What a reset logs that gets through. */
  function ResetDone(i: nat, token: string, newHash: string, now: int): seq<Event> {
    [Admitted(i, token, now), PasswordSet(i, token, newHash), Cleared(i)]
  }

  lemma ResetChecks(h: Hashing, bounds: Bounds, s: State, i: nat)
    requires i < |s.clients| && s.clients[i].ReadToken? && s.site.account.Some?
    requires TokenFits(h, SlotOp(s.site.slot, Get, s.clock).1.session, s.clients[i].token)
    ensures var p := s.clients[i];
      Both(h, bounds, s, i, i) ==
        s.(clients := s.clients[i := SetPassword(p.token, p.newHash)], log := s.log + [Admitted(i, p.token, s.clock)])
  {
    var p, t := s.clients[i], Next(h, bounds, s, Act(i));
    assert t == s.(clients := s.clients[i := FindUser(p.token, p.newHash)], log := s.log + [Admitted(i, p.token, s.clock)]);
    assert Next(h, bounds, t, Act(i)).log == t.log;
  }

  lemma ResetWrites(h: Hashing, bounds: Bounds, s: State, i: nat)
    requires i < |s.clients| && s.clients[i].SetPassword? && s.site.account.Some?
    ensures var p := s.clients[i];
      Both(h, bounds, s, i, i) ==
        State(Site(EMPTY, Some(p.newHash)), s.clock, s.clients[i := Done(PasswordChanged)],
              s.log + [PasswordSet(i, p.token, p.newHash), Cleared(i)])
  {
    var p, t := s.clients[i], Next(h, bounds, s, Act(i));
    assert t == State(Site(s.site.slot, Some(p.newHash)), s.clock, s.clients[i := CleanUp], s.log + [PasswordSet(i, p.token, p.newHash)]);
  }

  /** A reset with the stored token arrives and is run to its end. */
  lemma ResetGetsThrough(h: Hashing, bounds: Bounds, s: State, email: string, token: string, newHash: string)
      returns (actions: seq<Action>)
    requires email != "" && token != "" && s.site.account.Some? && h.token(token) != ""
    requires s.site.slot.session.Some? && s.site.slot.session.value.session.tokenHash == h.token(token)
    ensures Exec(h, bounds, s, actions) ==
      State(Site(EMPTY, Some(newHash)), s.clock, s.clients + [Done(PasswordChanged)],
            s.log + ResetDone(|s.clients|, token, newHash, s.clock))
  {
    hide Exec, Both;
    var i, arrival := |s.clients|, Arrive(email, Reset(token, newHash, true));
    var s1 := Next(h, bounds, s, arrival);
    ResetChecks(h, bounds, s1, i);
    var s2 := Both(h, bounds, s1, i, i);
    ResetWrites(h, bounds, s2, i);
    actions := [arrival] + Once(i, i) + Once(i, i);
    ExecConcat(h, bounds, s, [arrival] + Once(i, i), Once(i, i));
    ExecConcat(h, bounds, s, [arrival], Once(i, i));
    ExecOne(h, bounds, s, arrival);
    OnceIsBoth(h, bounds, s1, i, i);
    OnceIsBoth(h, bounds, s2, i, i);
  }

  /** Request i promotes a token, and a reset uses it. */
  lemma PromotedTokenIsUsed(h: Hashing, bounds: Bounds, s: State, i: nat, email: string, newHash: string)
      returns (actions: seq<Action>)
    requires i < |s.clients| && s.clients[i].Promote? && s.site.account.Some?
    requires email != "" && s.clients[i].generated != "" && h.token(s.clients[i].generated) != ""
    ensures var token := s.clients[i].generated;
      Exec(h, bounds, s, actions) ==
      State(Site(EMPTY, Some(newHash)), s.clock, s.clients[i := Done(TokenIssued(token))] + [Done(PasswordChanged)],
            s.log + [Promoted(i, h.token(token), s.clock)] + ResetDone(|s.clients|, token, newHash, s.clock))
  {
    hide Exec;
    var t := Next(h, bounds, s, Act(i));
    var rest := ResetGetsThrough(h, bounds, t, email, s.clients[i].generated, newHash);
    actions := [Act(i)] + rest;
    ExecConcat(h, bounds, s, [Act(i)], rest);
    ExecOne(h, bounds, s, Act(i));
  }

  /** From the start of any account: a verification that compared its code before a reset cleared the
      session still gets a token after it, and that token changes the password once more. Nothing is
      issued, read or compared after the clear. */
  lemma CodeOutlivesAReset(h: Hashing, bounds: Bounds, account: string, clock: int, email: string, codeHash: string, code: string,
                           token: string, token': string, first: string, second: string) returns (actions: seq<Action>)
    requires email != "" && codeHash != "" && code != "" && h.matches(codeHash, code)
    requires token != "" && token' != "" && h.token(token) != "" && h.token(token') != ""
    ensures var t := Exec(h, bounds, Initial(Some(account), clock), actions);
      && t.site == Site(EMPTY, Some(second))
      && |t.log| >= 8
      && t.log[|t.log| - 8..] ==
           [Promoted(1, h.token(token), clock)] + ResetDone(3, token, first, clock)
             + [Promoted(2, h.token(token'), clock)] + ResetDone(4, token', second, clock)
  {
    hide Exec, Both;
    var s := Initial(Some(account), clock);
    var a := CodeGetsPending(h, bounds, s, email, codeHash);
    var s1 := Exec(h, bounds, s, a);
    var b := TwoArrive(h, bounds, s1, email, Verify(code, token), Verify(code, token'));
    var s2 := Exec(h, bounds, s1, b);
    var s3 := BothVerified(h, bounds, s2, 1, 2);
    var c := PromotedTokenIsUsed(h, bounds, s3, 1, email, first);
    var s4 := Exec(h, bounds, s3, c);
    var e := PromotedTokenIsUsed(h, bounds, s4, 2, email, second);
    actions := a + b + (Once(1, 2) + Once(1, 2)) + c + e;
    ExecConcat(h, bounds, s, a + b + (Once(1, 2) + Once(1, 2)) + c, e);
    ExecConcat(h, bounds, s, a + b + (Once(1, 2) + Once(1, 2)), c);
    ExecConcat(h, bounds, s, a + b, Once(1, 2) + Once(1, 2));
    ExecConcat(h, bounds, s, a, b);
  }

  /** Two verifications read the code and find it right. */
  lemma BothVerified(h: Hashing, bounds: Bounds, s: State, i: nat, j: nat) returns (u: State)
    requires Waiting(s, i, j) && s.clients[i].ReadCode? && s.clients[j].ReadCode? && Pending(s.site.slot)
    requires 0 <= s.site.slot.session.value.session.attempts <= MAX_VERIFY_ATTEMPTS - 2
    requires h.matches(s.site.slot.session.value.session.codeHash, s.clients[i].code)
    requires h.matches(s.site.slot.session.value.session.codeHash, s.clients[j].code)
    ensures u == Exec(h, bounds, s, Once(i, j) + Once(i, j))
    ensures u.clients == s.clients[i := Promote(s.clients[i].generated)][j := Promote(s.clients[j].generated)]
    ensures u.clock == s.clock && u.site.account == s.site.account
  {
    hide Both, Exec;
    var t := Both(h, bounds, s, i, j);
    u := Both(h, bounds, t, i, j);
    BothReadCode(h, bounds, s, i, j);
    BothGuessRight(h, bounds, t, i, j);
    OnceIsBoth(h, bounds, s, i, j);
    OnceIsBoth(h, bounds, t, i, j);
    ExecConcat(h, bounds, s, Once(i, j), Once(i, j));
  }
}
