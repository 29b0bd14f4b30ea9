/** The per-campaign broadcaster: internal/initiativehub/hub.go. A publisher copies the channels of a
    campaign under the lock and sends outside it, so sends interleave with everything else. */
module Hub {
  import opened Seqs
  import opened TurnOrder

  const BUFFER_SIZE := 16

  /** A send tried on a channel: `pending` is how full the buffer was. */
  datatype Attempt = Attempt(campaign: string, msg: Call, pending: nat)

  /** What a subscriber's channel holds and, as history, everything received from it and tried on it.
      Unsubscribing unmaps it but does not close it. */
  datatype Channel = Channel(campaign: string, queue: seq<Call>, received: seq<Call>, attempts: seq<Attempt>)

  /** A publisher between taking its copy and its last send. */
  datatype Publisher = Publisher(campaign: string, msg: Call, targets: seq<int>)

  datatype Action =
    | DoSubscribe(campaign: string)
    | DoUnsubscribe(campaign: string, id: int)
    | BeginPublish(campaign: string, msg: Call, targets: seq<int>)
    | Send(k: nat)
    | Receive(id: int)

  datatype State = State(subs: map<string, set<int>>, next: int, chans: map<int, Channel>, pubs: seq<Publisher>)

  function Bucket(subs: map<string, set<int>>, campaign: string): set<int> {
    if campaign in subs then subs[campaign] else {}
  }

  /** A non-blocking send on a buffer: it fails exactly when the buffer is full. */
  function Pushed(queue: seq<Call>, msg: Call): seq<Call> {
    if |queue| < BUFFER_SIZE then queue + [msg] else queue
  }

  /** The same with its history. */
  function Offer(ch: Channel, campaign: string, msg: Call): Channel {
    ch.(queue := Pushed(ch.queue, msg), attempts := ch.attempts + [Attempt(campaign, msg, |ch.queue|)])
  }

  function Joined(subs: map<string, set<int>>, campaign: string, id: int): map<string, set<int>> {
    subs[campaign := Bucket(subs, campaign) + {id}]
  }

  function Left(subs: map<string, set<int>>, campaign: string, id: int): map<string, set<int>> {
    if campaign !in subs then subs
    else if subs[campaign] - {id} == {} then subs - {campaign}
    else subs[campaign := subs[campaign] - {id}]
  }

  // ---------------------------------------------------------------- the hub itself

  /** `chans` stands for the buffered channels: what is pending in each. */
  class Hub {
    var subs: map<string, set<int>>
    var next: int
    var chans: map<int, seq<Call>>

    constructor ()
      ensures subs == map[] && next == 0 && chans == map[]
    {
      subs, next, chans := map[], 0, map[];
    }

    method Subscribe(campaign: string) returns (id: int)
      modifies this
      ensures id == old(next) && next == old(next) + 1
      ensures subs == Joined(old(subs), campaign, id)
      ensures forall c, x :: x in Bucket(subs, c) <==> x in Bucket(old(subs), c) || (c == campaign && x == id)
      ensures chans == old(chans)[id := []]
    {
      id := next;
      next := next + 1;
      chans := chans[id := []];
      if campaign !in subs {
        subs := subs[campaign := {}];
      }
      subs := subs[campaign := subs[campaign] + {id}];
    }

    method Unsubscribe(campaign: string, id: int)
      modifies this`subs
      ensures subs == Left(old(subs), campaign, id)
      ensures forall c, x :: x in Bucket(subs, c) <==> x in Bucket(old(subs), c) && !(c == campaign && x == id)
    {
      if campaign in subs {
        var bucket := subs[campaign] - {id};
        subs := subs[campaign := bucket];
        if |bucket| == 0 {
          subs := subs - {campaign};
        }
      }
    }

    method TrySend(id: int, msg: Call)
      requires id in chans
      modifies this`chans
      ensures chans == old(chans)[id := Pushed(old(chans)[id], msg)]
    {
      if |chans[id]| < BUFFER_SIZE {
        chans := chans[id := chans[id] + [msg]];
      } else {
        assert chans[id := chans[id]] == chans;
      }
    }

    /** Publishing undisturbed: every subscriber of the campaign is offered the message once. */
    method Publish(campaign: string, msg: Call)
      requires Bucket(subs, campaign) <= chans.Keys
      modifies this`chans
      ensures chans.Keys == old(chans.Keys)
      ensures forall id :: id in chans ==>
        chans[id] == if id in Bucket(subs, campaign) then Pushed(old(chans)[id], msg) else old(chans)[id]
    {
      hide Pushed;
      var bucket := Bucket(subs, campaign);
      if |bucket| == 0 { return; }
      var targets := bucket;
      while |targets| > 0
        invariant targets <= bucket && chans.Keys == old(chans.Keys)
        invariant forall id :: id in chans ==>
          chans[id] == if id in bucket - targets then Pushed(old(chans)[id], msg) else old(chans)[id]
        decreases |targets|
      {
        var id := Any(targets);
        TrySend(id, msg);
        targets := targets - {id};
      }
    }
  }

  // ---------------------------------------------------------------- all interleavings

  predicate Enabled(s: State, a: Action) {
    match a
    case BeginPublish(campaign, _, targets) => NoDup(targets) && Elems(targets) == Bucket(s.subs, campaign)
    case Send(k) => k < |s.pubs| && s.pubs[k].targets != [] && s.pubs[k].targets[0] in s.chans
    case Receive(id) => id in s.chans && s.chans[id].queue != []
    case _ => true
  }

  function Next(s: State, a: Action): State
    requires Enabled(s, a)
  {
    match a
    case DoSubscribe(campaign) =>
      State(Joined(s.subs, campaign, s.next), s.next + 1, s.chans[s.next := Channel(campaign, [], [], [])], s.pubs)
    case DoUnsubscribe(campaign, id) => s.(subs := Left(s.subs, campaign, id))
    case BeginPublish(campaign, msg, targets) => s.(pubs := s.pubs + [Publisher(campaign, msg, targets)])
    case Send(k) =>
      var p := s.pubs[k];
      s.(chans := s.chans[p.targets[0] := Offer(s.chans[p.targets[0]], p.campaign, p.msg)],
         pubs := s.pubs[k := p.(targets := p.targets[1..])])
    case Receive(id) =>
      var ch := s.chans[id];
      s.(chans := s.chans[id := ch.(queue := ch.queue[1..], received := ch.received + [ch.queue[0]])])
  }

  function Exec(actions: seq<Action>): State {
    if actions == [] then State(map[], 0, map[], [])
    else
      var s := Exec(Init(actions));
      if Enabled(s, Last(actions)) then Next(s, Last(actions)) else s
  }

  /** The messages whose send found room. */
  function Accepted(attempts: seq<Attempt>): seq<Call> {
    if attempts == [] then []
    else Accepted(Init(attempts)) + (if Last(attempts).pending < BUFFER_SIZE then [Last(attempts).msg] else [])
  }

  /** Received and queued messages are exactly the sends that found room, in the order of the sends;
      all were published for this campaign, and a send is missed only with a full buffer. */
  predicate ChannelOk(ch: Channel) {
    && ch.received + ch.queue == Accepted(ch.attempts)
    && |ch.queue| <= BUFFER_SIZE
    && forall i :: 0 <= i < |ch.attempts| ==> ch.attempts[i].campaign == ch.campaign && ch.attempts[i].pending <= BUFFER_SIZE
  }

  predicate Inv(s: State) {
    && (forall id :: id in s.chans ==> id < s.next && ChannelOk(s.chans[id]))
    && (forall c :: c in s.subs ==> s.subs[c] != {})
    && (forall c, id :: c in s.subs && id in s.subs[c] ==> id in s.chans && s.chans[id].campaign == c)
    && (forall k, j :: 0 <= k < |s.pubs| && 0 <= j < |s.pubs[k].targets| ==>
          s.pubs[k].targets[j] in s.chans && s.chans[s.pubs[k].targets[j]].campaign == s.pubs[k].campaign)
  }

  lemma OfferOk(ch: Channel, msg: Call)
    requires ChannelOk(ch)
    ensures ChannelOk(Offer(ch, ch.campaign, msg)) && Offer(ch, ch.campaign, msg).campaign == ch.campaign
  {
    var t := Offer(ch, ch.campaign, msg);
    assert Init(t.attempts) == ch.attempts;
    assert t.received + t.queue == (ch.received + ch.queue) + t.queue[|ch.queue|..];
  }

  lemma SendKeepsInv(s: State, k: nat)
    requires Inv(s) && Enabled(s, Send(k))
    ensures Inv(Next(s, Send(k)))
  {
    hide Offer, ChannelOk;
    var t, id := Next(s, Send(k)), s.pubs[k].targets[0];
    assert s.chans[id].campaign == s.pubs[k].campaign;
    OfferOk(s.chans[id], s.pubs[k].msg);
    forall m, j | 0 <= m < |t.pubs| && 0 <= j < |t.pubs[m].targets|
      ensures t.pubs[m].targets[j] in t.chans && t.chans[t.pubs[m].targets[j]].campaign == t.pubs[m].campaign
    {
      var i := if m == k then j + 1 else j;
      assert t.pubs[m].targets[j] == s.pubs[m].targets[i];
    }
  }

  lemma NewChannelOk(campaign: string)
    ensures ChannelOk(Channel(campaign, [], [], []))
  {
  }

  lemma SubscribeKeepsInv(s: State, campaign: string)
    requires Inv(s)
    ensures Inv(Next(s, DoSubscribe(campaign)))
  {
    hide ChannelOk;
    NewChannelOk(campaign);
    var t := Next(s, DoSubscribe(campaign));
    forall c, id | c in t.subs && id in t.subs[c] ensures id in t.chans && t.chans[id].campaign == c {
      assert id in s.chans || id == s.next;
    }
  }

  lemma UnsubscribeKeepsInv(s: State, campaign: string, id: int)
    requires Inv(s)
    ensures Inv(Next(s, DoUnsubscribe(campaign, id)))
  {
    hide ChannelOk;
  }

  lemma BeginKeepsInv(s: State, campaign: string, msg: Call, targets: seq<int>)
    requires Inv(s) && Enabled(s, BeginPublish(campaign, msg, targets))
    ensures Inv(Next(s, BeginPublish(campaign, msg, targets)))
  {
    hide ChannelOk;
    var t := Next(s, BeginPublish(campaign, msg, targets));
    forall k, j | 0 <= k < |t.pubs| && 0 <= j < |t.pubs[k].targets|
      ensures t.pubs[k].targets[j] in t.chans && t.chans[t.pubs[k].targets[j]].campaign == t.pubs[k].campaign
    {
      if k == |s.pubs| {
        var id := targets[j];
        assert id in targets && id in Elems(targets);
        assert id in Bucket(s.subs, campaign);
        assert campaign in s.subs && id in s.subs[campaign];
      } else {
        assert t.pubs[k] == s.pubs[k];
      }
    }
  }

  lemma NextKeepsInv(s: State, a: Action)
    requires Inv(s) && Enabled(s, a)
    ensures Inv(Next(s, a))
  {
    hide Inv, Enabled, Next;
    match a
    case Send(k) => SendKeepsInv(s, k);
    case Receive(id) => ReceiveKeepsInv(s, id);
    case DoSubscribe(campaign) => SubscribeKeepsInv(s, campaign);
    case DoUnsubscribe(campaign, id) => UnsubscribeKeepsInv(s, campaign, id);
    case BeginPublish(campaign, msg, targets) => BeginKeepsInv(s, campaign, msg, targets);
  }

  lemma ReceiveKeepsInv(s: State, id: int)
    requires Inv(s) && Enabled(s, Receive(id))
    ensures Inv(Next(s, Receive(id)))
  {
    hide Offer, Accepted, ChannelOk;
    var ch := s.chans[id];
    assert ChannelOk(ch);
    ReceiveOk(ch);
  }

  lemma ReceiveOk(ch: Channel)
    requires ChannelOk(ch) && ch.queue != []
    ensures ChannelOk(ch.(queue := ch.queue[1..], received := ch.received + [ch.queue[0]]))
  {
    assert ch.received + [ch.queue[0]] + ch.queue[1..] == ch.received + ch.queue;
  }

  /** All of this holds after any sequence of interleaved steps. */
  lemma {:induction false} AlwaysInv(actions: seq<Action>)
    ensures Inv(Exec(actions))
  {
    if actions != [] {
      AlwaysInv(Init(actions));
      var s := Exec(Init(actions));
      if Enabled(s, Last(actions)) {
        NextKeepsInv(s, Last(actions));
      }
    }
  }

  /** Subscriber ids are never reused: a subscription gets an id no channel ever had, and no channel
      disappears or changes its campaign. */
  lemma IdsAreNeverReused(actions: seq<Action>, more: seq<Action>)
    ensures Exec(actions).next !in Exec(actions).chans
    ensures forall id :: id in Exec(actions).chans ==>
      id in Exec(actions + more).chans && Exec(actions + more).chans[id].campaign == Exec(actions).chans[id].campaign
    decreases |more|
  {
    hide ChannelOk;
    AlwaysInv(actions);
    if more == [] {
      assert actions + more == actions;
    } else {
      IdsAreNeverReused(actions, Init(more));
      assert Init(actions + more) == actions + Init(more);
      AlwaysInv(actions + Init(more));
    }
  }

  /** `s` is obtained from `t` by leaving elements out. */
  predicate Subsequence(s: seq<Call>, t: seq<Call>) {
    if s == [] then true
    else t != [] && ((Last(s) == Last(t) && Subsequence(Init(s), Init(t))) || Subsequence(s, Init(t)))
  }

  function Messages(attempts: seq<Attempt>): (r: seq<Call>)
    ensures |r| == |attempts|
  {
    seq(|attempts|, i requires 0 <= i < |attempts| => attempts[i].msg)
  }

  lemma {:induction false} AcceptedInOrder(attempts: seq<Attempt>)
    ensures Subsequence(Accepted(attempts), Messages(attempts))
  {
    if attempts != [] {
      AcceptedInOrder(Init(attempts));
      var a, m := Accepted(Init(attempts)), Messages(attempts);
      assert Init(m) == Messages(Init(attempts));
      if Last(attempts).pending < BUFFER_SIZE {
        assert Init(a + [Last(attempts).msg]) == a;
      } else {
        assert Accepted(attempts) == a;
      }
    }
  }

  /** What a subscriber got or will get is an in-order subsequence of the sends tried on its channel,
      all of them for its campaign; with never more than 16 pending nothing at all is missed. */
  lemma SubscriberSeesItsCampaign(actions: seq<Action>, id: int)
    requires id in Exec(actions).chans
    ensures var ch := Exec(actions).chans[id];
      && Subsequence(ch.received + ch.queue, Messages(ch.attempts))
      && (forall i :: 0 <= i < |ch.attempts| ==> ch.attempts[i].campaign == ch.campaign)
      && |ch.queue| <= 16
      && ((forall i :: 0 <= i < |ch.attempts| ==> ch.attempts[i].pending != 16)
          <==> ch.received + ch.queue == Messages(ch.attempts))
  {
    AlwaysInv(actions);
    var ch := Exec(actions).chans[id];
    AcceptedInOrder(ch.attempts);
    NothingMissed(ch.attempts);
  }

  lemma {:induction false} NothingMissed(attempts: seq<Attempt>)
    requires forall i :: 0 <= i < |attempts| ==> attempts[i].pending <= BUFFER_SIZE
    ensures |Accepted(attempts)| <= |attempts|
    ensures (forall i :: 0 <= i < |attempts| ==> attempts[i].pending != BUFFER_SIZE)
        <==> Accepted(attempts) == Messages(attempts)
  {
    if attempts != [] {
      NothingMissed(Init(attempts));
      var a := Accepted(Init(attempts));
      assert Messages(attempts) == Messages(Init(attempts)) + [Last(attempts).msg];
      assert attempts == Init(attempts) + [Last(attempts)];
      if Accepted(attempts) == Messages(attempts) {
        assert |a| == |Init(attempts)|;
        assert a == Accepted(attempts)[..|a|] && Messages(Init(attempts)) == Messages(attempts)[..|a|];
      }
    }
  }

  // ---------------------------------------------------------------- who is subscribed, and what for

  /** Some subscription to the campaign got this id, and was not cancelled afterwards. */
  predicate SubscribedIn(actions: seq<Action>, campaign: string, id: int) {
    exists i :: 0 <= i < |actions| && SubscribedAt(actions, i, campaign, id)
  }

  predicate SubscribedAt(actions: seq<Action>, i: nat, campaign: string, id: int)
    requires i < |actions|
  {
    && actions[i] == DoSubscribe(campaign) && Exec(actions[..i]).next == id
    && forall j :: i < j < |actions| ==> actions[j] != DoUnsubscribe(campaign, id)
  }

  lemma SubscribedBefore(actions: seq<Action>, campaign: string, id: int)
    requires actions != []
    ensures SubscribedIn(actions, campaign, id) <==>
      || (SubscribedIn(Init(actions), campaign, id) && Last(actions) != DoUnsubscribe(campaign, id))
      || (Last(actions) == DoSubscribe(campaign) && Exec(Init(actions)).next == id)
  {
    hide Exec;
    var n := |actions| - 1;
    assert actions[..n] == Init(actions) && actions[n] == Last(actions);
    assert forall i :: 0 <= i < n ==> actions[..i] == Init(actions)[..i] && actions[i] == Init(actions)[i];
    if SubscribedIn(Init(actions), campaign, id) && Last(actions) != DoUnsubscribe(campaign, id) {
      var i :| 0 <= i < n && SubscribedAt(Init(actions), i, campaign, id);
      assert SubscribedAt(actions, i, campaign, id);
    }
    if Last(actions) == DoSubscribe(campaign) && Exec(Init(actions)).next == id {
      assert SubscribedAt(actions, n, campaign, id);
    }
    if SubscribedIn(actions, campaign, id) {
      var i :| 0 <= i < |actions| && SubscribedAt(actions, i, campaign, id);
      if i < n { assert SubscribedAt(Init(actions), i, campaign, id); }
    }
  }

  /** After any interleaving the subscribers of a campaign are exactly those that subscribed and did not
      unsubscribe since. */
  lemma {:induction false} SubscribersAreThoseWhoStayed(actions: seq<Action>, campaign: string, id: int)
    ensures id in Bucket(Exec(actions).subs, campaign) <==> SubscribedIn(actions, campaign, id)
  {
    if actions != [] {
      SubscribersAreThoseWhoStayed(Init(actions), campaign, id);
      SubscribedBefore(actions, campaign, id);
      hide SubscribedIn;
    }
  }

  /** A publisher sends to exactly the subscribers of that moment, once each. */
  lemma PublishersTakeThemAll(actions: seq<Action>, campaign: string, msg: Call, targets: seq<int>)
    ensures Enabled(Exec(actions), BeginPublish(campaign, msg, targets)) <==>
      NoDup(targets) && forall id :: id in targets <==> SubscribedIn(actions, campaign, id)
  {
    hide SubscribedIn, Exec;
    var bucket, elems := Bucket(Exec(actions).subs, campaign), Elems(targets);
    forall id ensures (id in bucket <==> SubscribedIn(actions, campaign, id)) && (id in targets <==> id in elems) {
      SubscribersAreThoseWhoStayed(actions, campaign, id);
    }
    if forall id :: id in targets <==> SubscribedIn(actions, campaign, id) {
      assert forall id :: id in elems <==> id in bucket;
      assert elems == bucket;
    }
  }

  function TakenAlong(a: Action, id: int): multiset<Call> {
    if a.BeginPublish? && id in a.targets then multiset{a.msg} else multiset{}
  }

  /** The messages of the publishes that took this subscriber along. */
  function PublishedTo(actions: seq<Action>, id: int): multiset<Call> {
    if actions == [] then multiset{}
    else
      var a := Last(actions);
      PublishedTo(Init(actions), id)
        + if Enabled(Exec(Init(actions)), a) then TakenAlong(a, id) else multiset{}
  }

  /** What publishers under way have still to send to it. */
  function Owed(pubs: seq<Publisher>, id: int): multiset<Call> {
    if pubs == [] then multiset{}
    else Owed(Init(pubs), id) + Owing(Last(pubs), id)
  }

  /** How many messages it has taken from its channel. */
  function ReceivedBy(actions: seq<Action>, id: int): nat {
    if actions == [] then 0
    else
      ReceivedBy(Init(actions), id)
        + if Last(actions) == Receive(id) && Enabled(Exec(Init(actions)), Last(actions)) then 1 else 0
  }

  function OfferedTo(s: State, id: int): multiset<Call> {
    if id in s.chans then multiset(Messages(s.chans[id].attempts)) else multiset{}
  }

  function Owing(p: Publisher, id: int): multiset<Call> {
    if id in p.targets then multiset{p.msg} else multiset{}
  }

  lemma OwingAfterSend(p: Publisher, id: int)
    requires p.targets != [] && NoDup(p.targets)
    ensures Owing(p, id) == Owing(p.(targets := p.targets[1..]), id) + if id == p.targets[0] then multiset{p.msg} else multiset{}
  {
    assert p.targets == [p.targets[0]] + p.targets[1..];
    assert p.targets[0] !in p.targets[1..];
  }

  lemma {:induction false} OwedAfterSend(pubs: seq<Publisher>, k: nat, q: Publisher, id: int, sent: multiset<Call>)
    requires k < |pubs| && Owing(pubs[k], id) == Owing(q, id) + sent
    ensures Owed(pubs, id) == Owed(pubs[k := q], id) + sent
  {
    hide Owing;
    if k == |pubs| - 1 {
      assert Init(pubs[k := q]) == Init(pubs);
    } else {
      OwedAfterSend(Init(pubs), k, q, id, sent);
      assert Init(pubs[k := q]) == Init(pubs)[k := q];
    }
  }

  lemma OwedAfterBegin(pubs: seq<Publisher>, p: Publisher, id: int)
    ensures Owed(pubs + [p], id) == Owed(pubs, id) + Owing(p, id)
  {
    assert Init(pubs + [p]) == pubs;
  }

  predicate TargetsDistinct(pubs: seq<Publisher>) {
    forall k :: 0 <= k < |pubs| ==> NoDup(pubs[k].targets)
  }

  lemma MessagesSnoc(attempts: seq<Attempt>, a: Attempt)
    ensures multiset(Messages(attempts + [a])) == multiset(Messages(attempts)) + multiset{a.msg}
  {
    assert Messages(attempts + [a]) == Messages(attempts) + [a.msg];
  }

  function ReceivedOf(s: State, id: int): nat {
    if id in s.chans then |s.chans[id].received| else 0
  }

  lemma SendIsOffered(s: State, k: nat, id: int)
    requires TargetsDistinct(s.pubs) && Enabled(s, Send(k))
    ensures var t := Next(s, Send(k));
      && TargetsDistinct(t.pubs) && OfferedTo(t, id) + Owed(t.pubs, id) == OfferedTo(s, id) + Owed(s.pubs, id)
      && ReceivedOf(t, id) == ReceivedOf(s, id)
  {
    hide Owed, Owing, Messages;
    var p := s.pubs[k];
    OwingAfterSend(p, id);
    OwedAfterSend(s.pubs, k, p.(targets := p.targets[1..]), id, if id == p.targets[0] then multiset{p.msg} else multiset{});
    var ch := s.chans[p.targets[0]];
    MessagesSnoc(ch.attempts, Attempt(p.campaign, p.msg, |ch.queue|));
  }

  /** Of all other actions only a new publisher owes anything, and only a receive takes anything out. */
  lemma OthersOfferNothing(s: State, a: Action, id: int)
    requires TargetsDistinct(s.pubs) && Enabled(s, a) && !a.Send? && s.next !in s.chans
    ensures var t := Next(s, a);
      && TargetsDistinct(t.pubs) && OfferedTo(t, id) == OfferedTo(s, id)
      && Owed(t.pubs, id) == Owed(s.pubs, id) + TakenAlong(a, id)
      && ReceivedOf(t, id) == ReceivedOf(s, id) + (if a == Receive(id) then 1 else 0)
  {
    hide Owed;
    if a.BeginPublish? {
      OwedAfterBegin(s.pubs, Publisher(a.campaign, a.msg, a.targets), id);
    }
    assert Messages([]) == [];
  }

  lemma StepIsOffered(s: State, a: Action, id: int)
    requires TargetsDistinct(s.pubs) && Enabled(s, a) && s.next !in s.chans
    ensures var t := Next(s, a);
      && TargetsDistinct(t.pubs)
      && OfferedTo(t, id) + Owed(t.pubs, id) == OfferedTo(s, id) + Owed(s.pubs, id) + TakenAlong(a, id)
      && ReceivedOf(t, id) == ReceivedOf(s, id) + (if a == Receive(id) then 1 else 0)
  {
    if a.Send? {
      SendIsOffered(s, a.k, id);
      assert TakenAlong(a, id) == multiset{};
    } else {
      OthersOfferNothing(s, a, id);
    }
    hide OfferedTo, Owed, ReceivedOf, TakenAlong, TargetsDistinct, Next, Enabled;
  }

  lemma RunUnrolled(actions: seq<Action>, id: int)
    requires actions != []
    ensures var s, a := Exec(Init(actions)), Last(actions);
      if Enabled(s, a) then
        && Exec(actions) == Next(s, a) && PublishedTo(actions, id) == PublishedTo(Init(actions), id) + TakenAlong(a, id)
        && ReceivedBy(actions, id) == ReceivedBy(Init(actions), id) + (if a == Receive(id) then 1 else 0)
      else
        && Exec(actions) == s && PublishedTo(actions, id) == PublishedTo(Init(actions), id)
        && ReceivedBy(actions, id) == ReceivedBy(Init(actions), id)
  {
    hide TakenAlong, Next, Enabled;
  }

  /** Every publish is offered exactly once to each subscriber of its moment, or still owed to it, and nothing
      else is ever offered; the channel gives out one message per receive. */
  lemma {:induction false} PublishesAreOfferedOnce(actions: seq<Action>, id: int)
    ensures var s := Exec(actions);
      && TargetsDistinct(s.pubs) && OfferedTo(s, id) + Owed(s.pubs, id) == PublishedTo(actions, id)
      && ReceivedOf(s, id) == ReceivedBy(actions, id)
  {
    if actions != [] {
      var s, a := Exec(Init(actions)), Last(actions);
      PublishesAreOfferedOnce(Init(actions), id);
      IdsAreNeverReused(Init(actions), []);
      RunUnrolled(actions, id);
      hide OfferedTo, Owed, ReceivedOf, TakenAlong, TargetsDistinct, Next, Enabled, Exec, PublishedTo, ReceivedBy;
      if Enabled(s, a) { StepIsOffered(s, a, id); }
    }
  }

  // ---------------------------------------------------------------- the hub as one of its interleavings

  /** The last publisher makes all its sends, with nothing in between. */
  function AllSends(s: State, left: nat): State
    requires s.pubs != [] && |Last(s.pubs).targets| == left && forall t :: t in Last(s.pubs).targets ==> t in s.chans
    decreases left
  {
    var k := |s.pubs| - 1;
    if left == 0 then s
    else
      var first := Last(s.pubs).targets[0];
      assert first in Last(s.pubs).targets;
      AllSends(Next(s, Send(k)), left - 1)
  }

  /** Publish, undisturbed, does to the channels what its copy and its sends do step by step. */
  lemma {:induction false} SendsOfferOnce(s: State, left: nat, id: int)
    requires s.pubs != [] && |Last(s.pubs).targets| == left && NoDup(Last(s.pubs).targets)
    requires forall t :: t in Last(s.pubs).targets ==> t in s.chans
    requires id in s.chans
    ensures var p, t := Last(s.pubs), AllSends(s, left);
      && t.chans.Keys == s.chans.Keys
      && t.chans[id] == if id in p.targets then Offer(s.chans[id], p.campaign, p.msg) else s.chans[id]
    decreases left
  {
    hide Offer;
    if left > 0 {
      var ts := Last(s.pubs).targets;
      var first := ts[0];
      assert first in ts && ts == [first] + ts[1..];
      assert first in s.chans;
      assert first !in ts[1..];
      SendsOfferOnce(Next(s, Send(|s.pubs| - 1)), left - 1, id);
    }
  }
}
