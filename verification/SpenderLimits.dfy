/** Runs in which the single retry of spendLimitedUse is not enough: a spender reports that no uses are left
    although one is there. Each kind of lifting suffices by itself. */
module SpenderLimits {
  import opened Seqs
  import opened LimitedUses
  import opened LimitedUseLaws
  import opened LimitedUseRuns
  import opened Spenders

  /** A run of a system that is left with one entry. `spare` stands for the ids generated in vain. */
  ghost predicate Reaches(s: System, run: seq<Action>, u: LimitedUse, clients: seq<Client>, spare: string) {
    Exec(s, run).uses == Some([u]) && Exec(s, run).clients == clients && !Issued(Exec(s, run).log, spare) && spare != u.id
  }

  /** Since the entry was created, some use has been left. */
  predicate NeverEmpty(s: System, run: seq<Action>, id: string) {
    forall k :: 1 <= k <= |run| ==> LeftOf(Exec(s, run[..k]).uses, id) >= 1
  }

  lemma Alone(u: LimitedUse)
    ensures forall f :: FirstMatch([u], f) == if Matches(u, f) then 0 else -1
    ensures Lookup(Some([u]), u.id) == Some(u)
  {
  }

  /** What an operation does when the player has just this entry, unless it removes it. */
  function On(u: LimitedUse, r: Request, p: Phase): (LimitedUse, Phase)
    requires !p.Done? && p != CountPlayer && (p == Only ==> r.Edit?)
  {
    match p
    case Only => (Patched(u, r.patch), Done(Item(Patched(u, r.patch))))
    case TryRemove(retry) => (u, TryDecrement(retry))
    case TryDecrement(retry) =>
      var v := u.(remaining := u.remaining - 1);
      if u.remaining > 0 && (u.resets || u.remaining > 1) then (v, Done(Item(v))) else (u, Check(retry))
    case Check(retry) => (u, if u.remaining > 0 && retry then TryRemove(false) else Done(Failed(NoUsesLeft)))
    case CasRead(attempt) => (u, match Wanted(r, u) case Err(e) => Done(Failed(e)) case Ok(_) => CasWrite(attempt, u))
    case CasWrite(attempt, seen) =>
      var v := u.(remaining := match Wanted(r, seen) case Ok(n) => n case Err(_) => seen.remaining);
      if Matches(u, Unchanged(u.id, seen.remaining, seen.max, r.Reset?)) then (v, Done(Item(v)))
      else (u, if attempt + 1 < CAS_ATTEMPTS then CasRead(attempt + 1) else Done(Failed(Changed)))
  }

  /** The client can take a step that keeps the entry. */
  predicate CanStep(u: LimitedUse, c: Client) {
    && (c.request.Spend? || c.request.Edit? || c.request.Restore? || c.request.Reset?)
    && c.request.id == u.id && !c.phase.Done? && c.phase != CountPlayer && (c.phase == Only ==> c.request.Edit?)
    && (c.phase.TryRemove? ==> u.resets || u.remaining != 1)
  }

  lemma OnIsStep(u: LimitedUse, c: Client, spare: string)
    requires CanStep(u, c)
    ensures StepRequest(Some([u]), c.request, c.phase, spare) == (Some([On(u, c.request, c.phase).0]), On(u, c.request, c.phase).1)
    ensures On(u, c.request, c.phase).0.id == u.id
  {
    Alone(u);
    assert forall v :: [u][0 := v] == [v];
  }

  /** One operation of client i. */
  lemma Step(s: System, run: seq<Action>, i: nat, u: LimitedUse, cs: seq<Client>, spare: string)
    returns (longer: seq<Action>, v: LimitedUse, after: seq<Client>)
    requires Reaches(s, run, u, cs, spare) && i < |cs| && CanStep(u, cs[i])
    ensures v == On(u, cs[i].request, cs[i].phase).0 && v.id == u.id
    ensures after == cs[i := Client(cs[i].request, On(u, cs[i].request, cs[i].phase).1)]
    ensures longer != [] && Init(longer) == run && Reaches(s, longer, v, after, spare)
    ensures NeverEmpty(s, run, u.id) && v.remaining >= 1 ==> NeverEmpty(s, longer, u.id)
  {
    hide StepRequest, Atomic, On;
    OnIsStep(u, cs[i], spare);
    longer := run + [Act(i, spare)];
    v := On(u, cs[i].request, cs[i].phase).0;
    after := cs[i := Client(cs[i].request, On(u, cs[i].request, cs[i].phase).1)];
    assert Init(longer) == run && Last(longer) == Act(i, spare);
    var t := Exec(s, run);
    assert Enabled(t, Act(i, spare)) && Exec(s, longer) == Next(t, Act(i, spare));
    Alone(v);
    forall k | 1 <= k <= |longer| && NeverEmpty(s, run, u.id) && v.remaining >= 1
      ensures LeftOf(Exec(s, longer[..k]).uses, u.id) >= 1
    {
      if k == |longer| { assert longer[..k] == longer; } else { assert longer[..k] == run[..k]; }
    }
  }

  /** The player's first request creates the entry. */
  lemma Created(s: System, id: string, spare: string) returns (run: seq<Action>, u: LimitedUse, cs: seq<Client>)
    requires Initial(s) && s.clients != [] && spare != id
    requires s.clients[0].request.Add? && WellFormed(s.clients[0].request)
    ensures var r := s.clients[0].request; u == LimitedUse(id, r.name, r.note, r.max, r.max, r.resets)
    ensures |cs| == |s.clients| && forall i :: 1 <= i < |cs| ==> cs[i] == s.clients[i]
    ensures Reaches(s, run, u, cs, spare) && NeverEmpty(s, run, id)
  {
    var r := s.clients[0].request;
    FirstAdd(s, id, spare);
    hide Issued, Enabled, Next, Lookup;
    run := [Act(0, id)];
    u := LimitedUse(id, r.name, r.note, r.max, r.max, r.resets);
    cs := s.clients[0 := Client(r, Done(Item(u)))];
    assert Exec(s, run) == Next(s, Act(0, id)) by { assert Init(run) == [] && Exec(s, []) == s; }
    Alone(u);
    assert run[..1] == run;
  }

  lemma FirstAdd(s: System, id: string, spare: string)
    requires Initial(s) && s.clients != [] && spare != id
    requires s.clients[0].request.Add? && WellFormed(s.clients[0].request)
    ensures Enabled(s, Act(0, id))
    ensures var t, r := Next(s, Act(0, id)), s.clients[0].request;
      var u := LimitedUse(id, r.name, r.note, r.max, r.max, r.resets);
      t.uses == Some([u]) && t.clients == s.clients[0 := Client(r, Done(Item(u)))] && !Issued(t.log, spare)
  {
    var r := s.clients[0].request;
    assert [] + [LimitedUse(id, r.name, r.note, r.max, r.max, r.resets)] == [LimitedUse(id, r.name, r.note, r.max, r.max, r.resets)];
  }

  /** All clients but these two stand where they stood. */
  predicate OnlyTwoMoved(cs: seq<Client>, after: seq<Client>, a: nat, b: nat) {
    |after| == |cs| && forall i :: 0 <= i < |cs| && i != a && i != b ==> after[i] == cs[i]
  }

  predicate SpenderAt(cs: seq<Client>, a: nat, id: string, p: Phase) {
    a < |cs| && cs[a] == Client(Spend(id), p)
  }

  // ---------------------------------------------------------------- restores

  /** Spender a misses the removal while two uses are left and the decrement once b has taken one. */
  lemma SpentInBetween(s: System, run: seq<Action>, u: LimitedUse, cs: seq<Client>, spare: string, a: nat, b: nat, retry: bool)
    returns (longer: seq<Action>, v: LimitedUse, after: seq<Client>)
    requires Reaches(s, run, u, cs, spare) && NeverEmpty(s, run, u.id) && a != b
    requires SpenderAt(cs, a, u.id, TryRemove(retry)) && SpenderAt(cs, b, u.id, TryRemove(true))
    requires u.remaining == 2 && !u.resets
    ensures v == u.(remaining := 1) && OnlyTwoMoved(cs, after, a, b) && SpenderAt(after, a, u.id, Check(retry))
    ensures Reaches(s, longer, v, after, spare) && NeverEmpty(s, longer, u.id)
  {
    hide Reaches, NeverEmpty;
    longer, v, after := Step(s, run, a, u, cs, spare);
    longer, v, after := Step(s, longer, b, v, after, spare);
    longer, v, after := Step(s, longer, b, v, after, spare);
    longer, v, after := Step(s, longer, a, v, after, spare);
  }

  lemma Restored(s: System, run: seq<Action>, u: LimitedUse, cs: seq<Client>, spare: string, r: nat)
    returns (longer: seq<Action>, v: LimitedUse, after: seq<Client>)
    requires Reaches(s, run, u, cs, spare) && NeverEmpty(s, run, u.id)
    requires r < |cs| && cs[r] == Client(Restore(u.id), CasRead(0)) && 1 <= u.remaining < u.max
    ensures v == u.(remaining := u.remaining + 1) && OnlyTwoMoved(cs, after, r, r)
    ensures Reaches(s, longer, v, after, spare) && NeverEmpty(s, longer, u.id)
  {
    hide Reaches, NeverEmpty;
    longer, v, after := Step(s, run, r, u, cs, spare);
    longer, v, after := Step(s, longer, r, v, after, spare);
  }

  /** A one-time entry with two uses is spent to one, restored, and spent to one again while spender 1 is
      midway: it misses twice and gives up, although a use was there from beginning to end. */
  lemma RestoreExhaustsTheRetry(s: System, id: string, spare: string) returns (run: seq<Action>)
    requires Initial(s) && |s.clients| == 5 && spare != id
    requires s.clients[0].request.Add? && WellFormed(s.clients[0].request)
    requires s.clients[0].request.max == 2 && !s.clients[0].request.resets
    requires s.clients[1].request == s.clients[2].request == s.clients[3].request == Spend(id)
    requires s.clients[4].request == Restore(id)
    ensures var t := Exec(s, run);
      |t.clients| == 5 && t.clients[1].phase == Done(Failed(NoUsesLeft)) && LeftOf(t.uses, id) == 1 && NeverEmpty(s, run, id)
  {
    hide NeverEmpty, Exec;
    var u, cs;
    run, u, cs := Created(s, id, spare);
    run, u, cs := SpentInBetween(s, run, u, cs, spare, 1, 2, true);
    run, u, cs := Step(s, run, 1, u, cs, spare);
    run, u, cs := Restored(s, run, u, cs, spare, 4);
    run, u, cs := SpentInBetween(s, run, u, cs, spare, 1, 3, false);
    run, u, cs := Step(s, run, 1, u, cs, spare);
    Alone(u);
  }

  // ---------------------------------------------------------------- switches of kind

  /** Spender a misses the removal while the entry is reset on rest and the decrement once it is not. */
  lemma SwitchedInBetween(s: System, run: seq<Action>, u: LimitedUse, cs: seq<Client>, spare: string, a: nat, e: nat, retry: bool)
    returns (longer: seq<Action>, v: LimitedUse, after: seq<Client>)
    requires Reaches(s, run, u, cs, spare) && NeverEmpty(s, run, u.id) && a != e
    requires SpenderAt(cs, a, u.id, TryRemove(retry)) && e < |cs| && cs[e] == Client(Switch(u.id, false), Only)
    requires u.remaining == 1 && u.resets
    ensures v == u.(resets := false) && OnlyTwoMoved(cs, after, a, e) && SpenderAt(after, a, u.id, Check(retry))
    ensures Reaches(s, longer, v, after, spare) && NeverEmpty(s, longer, u.id)
  {
    hide Reaches, NeverEmpty;
    longer, v, after := Step(s, run, a, u, cs, spare);
    longer, v, after := Step(s, longer, e, v, after, spare);
    longer, v, after := Step(s, longer, a, v, after, spare);
  }

  function Switch(id: string, resets: bool): Request {
    Edit(id, Patch(None, None, None, Some(resets)))
  }

  /** An entry with one use is switched from one kind to the other and back while spender 1 is midway. */
  lemma SwitchesExhaustTheRetry(s: System, id: string, spare: string) returns (run: seq<Action>)
    requires Initial(s) && |s.clients| == 5 && spare != id
    requires s.clients[0].request.Add? && WellFormed(s.clients[0].request)
    requires s.clients[0].request.max == 1 && s.clients[0].request.resets
    requires s.clients[1].request == Spend(id)
    requires s.clients[2].request == s.clients[3].request == Switch(id, false) && s.clients[4].request == Switch(id, true)
    ensures var t := Exec(s, run);
      |t.clients| == 5 && t.clients[1].phase == Done(Failed(NoUsesLeft)) && LeftOf(t.uses, id) == 1 && NeverEmpty(s, run, id)
  {
    hide NeverEmpty, Exec;
    var u, cs;
    run, u, cs := Created(s, id, spare);
    run, u, cs := SwitchedInBetween(s, run, u, cs, spare, 1, 2, true);
    run, u, cs := Step(s, run, 1, u, cs, spare);
    run, u, cs := Step(s, run, 4, u, cs, spare);
    run, u, cs := SwitchedInBetween(s, run, u, cs, spare, 1, 3, false);
    run, u, cs := Step(s, run, 1, u, cs, spare);
    Alone(u);
  }

  // ---------------------------------------------------------------- resets

  /** Spender a misses the decrement after b has taken the only use; then the entry is reset. */
  lemma ResetInBetween(s: System, run: seq<Action>, u: LimitedUse, cs: seq<Client>, spare: string, a: nat, b: nat, r: nat, retry: bool)
    returns (longer: seq<Action>, after: seq<Client>)
    requires Reaches(s, run, u, cs, spare) && a != b && a != r && b != r
    requires SpenderAt(cs, a, u.id, TryRemove(retry)) && SpenderAt(cs, b, u.id, TryRemove(true))
    requires r < |cs| && cs[r] == Client(Reset(u.id), CasRead(0)) && u.remaining == 1 == u.max && u.resets
    ensures |after| == |cs| && forall i :: 0 <= i < |cs| && i != a && i != b && i != r ==> after[i] == cs[i]
    ensures SpenderAt(after, a, u.id, Check(retry)) && Reaches(s, longer, u, after, spare)
  {
    hide Reaches, NeverEmpty;
    var v;
    longer, v, after := Step(s, run, a, u, cs, spare);
    longer, v, after := Step(s, longer, b, v, after, spare);
    longer, v, after := Step(s, longer, b, v, after, spare);
    longer, v, after := Step(s, longer, a, v, after, spare);
    longer, v, after := Step(s, longer, r, v, after, spare);
    longer, v, after := Step(s, longer, r, v, after, spare);
  }

  /** An entry with one use per rest is spent and reset twice while spender 1 is midway: it gives up just
      after the second reset. */
  lemma ResetsExhaustTheRetry(s: System, id: string, spare: string) returns (run: seq<Action>)
    requires Initial(s) && |s.clients| == 6 && spare != id
    requires s.clients[0].request.Add? && WellFormed(s.clients[0].request)
    requires s.clients[0].request.max == 1 && s.clients[0].request.resets
    requires s.clients[1].request == s.clients[2].request == s.clients[3].request == Spend(id)
    requires s.clients[4].request == s.clients[5].request == Reset(id)
    ensures var t := Exec(s, run);
      |t.clients| == 6 && t.clients[1].phase == Done(Failed(NoUsesLeft)) && LeftOf(t.uses, id) == 1
  {
    hide NeverEmpty, Exec;
    var u, cs;
    run, u, cs := Created(s, id, spare);
    run, cs := ResetInBetween(s, run, u, cs, spare, 1, 2, 4, true);
    run, u, cs := Step(s, run, 1, u, cs, spare);
    run, cs := ResetInBetween(s, run, u, cs, spare, 1, 3, 5, false);
    run, u, cs := Step(s, run, 1, u, cs, spare);
    Alone(u);
  }
}
