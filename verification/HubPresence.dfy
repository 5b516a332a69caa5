/** What clients are told: every presence event has its cause in the log, every message
    event was published for its recipient, and what a queue has taken in stays. */
module HubPresence {
  import opened Common
  import opened Channel
  import opened HubMachine
  import Chat
  import ChatMachine

  // ---- The log says where each client has been ----

  ghost predicate HasRegistered(log: seq<Entry>, u: UserId, c: ClientId) {
    exists i :: 0 <= i < |log| && log[i].Joined? && log[i].user == u && log[i].client == c
  }

  ghost predicate Recorded(log: seq<Entry>, c: ClientId, client: Client) {
    && (!client.phase.Opened? && !client.phase.Online? ==> HasRegistered(log, client.user, c))
    && (client.phase in {Removed, Announced, Cleared, Gone(true)} ==> Left(client.user, c) in log)
    && (client.phase in {Announced, Cleared, Gone(true)} ==> SaidOffline(c) in log)
    && (client.phase in {Cleared, Gone(true)} ==> ClearedPresence(c) in log)
  }

  ghost predicate AllRecorded(s: State) {
    forall c :: c in s.clients ==> Recorded(s.log, c, s.clients[c])
  }

  lemma RegisteredStays(log: seq<Entry>, log': seq<Entry>, u: UserId, c: ClientId)
    requires log <= log' && HasRegistered(log, u, c)
    ensures HasRegistered(log', u, c)
  {
    var i :| 0 <= i < |log| && log[i].Joined? && log[i].user == u && log[i].client == c;
    assert log'[i] == log[i];
  }

  lemma RecordedStays(log: seq<Entry>, log': seq<Entry>, c: ClientId, client: Client, client': Client)
    requires log <= log' && Recorded(log, c, client)
    requires client'.phase == client.phase && client'.user == client.user
    ensures Recorded(log', c, client')
  {
    if HasRegistered(log, client.user, c) {
      RegisteredStays(log, log', client.user, c);
    }
    forall e: Entry | e in log ensures e in log' {
      var i :| 0 <= i < |log| && log[i] == e;
      assert log'[i] == e;
    }
  }

  /** Another state in which only this client may be elsewhere in `Run`. */
  ghost predicate OnlyMoves(s: State, s': State, c: ClientId) {
    && s.log <= s'.log && s'.clients.Keys == s.clients.Keys
    && forall d :: d in s.clients && d != c ==>
                     s'.clients[d].phase == s.clients[d].phase && s'.clients[d].user == s.clients[d].user
  }

  lemma RegisterIsOwn(s: State, c: ClientId)
    requires c in s.clients
    ensures OnlyMoves(s, Register(s, c), c)
  {
  }

  lemma UnregisterIsOwn(s: State, c: ClientId)
    requires c in s.clients
    ensures OnlyMoves(s, Unregister(s, c), c)
  {
  }

  /** A client's progress is its own, and the log only grows. */
  lemma ProceedIsOwn(s: State, c: ClientId)
    requires c in s.clients
    ensures OnlyMoves(s, Proceeded(s, c), c)
  {
    match s.clients[c].phase
    case Online => RegisterIsOwn(s, c);
    case Ended => UnregisterIsOwn(s, c);
    case _ =>
  }

  lemma ProceedIsRecorded(s: State, c: ClientId)
    requires c in s.clients && Recorded(s.log, c, s.clients[c])
    ensures c in Proceeded(s, c).clients && Recorded(Proceeded(s, c).log, c, Proceeded(s, c).clients[c])
  {
    var s', client := Proceeded(s, c), s.clients[c];
    ProceedIsOwn(s, c);
    RecordedStays(s.log, s'.log, c, client, client);
    if s'.log != s.log {
      assert s'.log[|s.log|] in s'.log;
      if client.phase == Online {
        assert s'.log[|s.log|].Joined? && s'.log[|s.log|].user == client.user && s'.log[|s.log|].client == c;
      }
    }
  }

  lemma RecordedStep(s: State, a: Act)
    requires AllRecorded(s)
    ensures AllRecorded(Step(s, a))
  {
    var s' := Step(s, a);
    if a.Proceed? && a.client in s.clients {
      ProceedIsOwn(s, a.client);
      forall d | d in s'.clients ensures Recorded(s'.log, d, s'.clients[d]) {
        if d == a.client {
          ProceedIsRecorded(s, d);
        } else {
          RecordedStays(s.log, s'.log, d, s.clients[d], s'.clients[d]);
        }
      }
    } else {
      assert s'.log == s.log;
      forall d | d in s'.clients ensures Recorded(s'.log, d, s'.clients[d]) {
        if d in s.clients {
          RecordedStays(s.log, s.log, d, s.clients[d], s'.clients[d]);
        }
      }
    }
  }

  // ---- Every event has a cause ----

  ghost predicate HasJoined(log: seq<Entry>, u: UserId) {
    exists i :: 0 <= i < |log| && JoinOf(log[i], u)
  }

  ghost predicate HasLeft(log: seq<Entry>, u: UserId) {
    exists i :: 0 <= i < |log| && LeaveOf(log[i], u)
  }

  /** An online event follows a registration of its user, an offline event a successful
      unregistration; a message event is one of those published, for this recipient. */
  ghost predicate Caused(log: seq<Entry>, published: set<Chat.Fanout>, e: Event, to: UserId) {
    match e.kind
    case PresenceOnline => HasJoined(log, e.origin)
    case PresenceOffline => HasLeft(log, e.origin)
    case OfMessage(kind) =>
      exists f :: f in published && f.passed && f.kind == kind && f.origin == e.origin && f.recipient == to
  }

  ghost predicate AllCaused(s: State, published: set<Chat.Fanout>) {
    && (forall k :: k in s.flights ==>
                      && s.flights[k].client in s.clients
                      && Caused(s.log, published, s.flights[k].event, s.clients[s.flights[k].client].user))
    && forall c, i :: c in s.clients && 0 <= i < |s.clients[c].channel.sent| ==>
                        Caused(s.log, published, s.clients[c].channel.sent[i], s.clients[c].user)
  }

  lemma CausedStays(log: seq<Entry>, log': seq<Entry>, published: set<Chat.Fanout>, e: Event, to: UserId)
    requires log <= log' && Caused(log, published, e, to)
    ensures Caused(log', published, e, to)
  {
    match e.kind
    case PresenceOnline =>
      var i :| 0 <= i < |log| && JoinOf(log[i], e.origin);
      assert JoinOf(log'[i], e.origin);
    case PresenceOffline =>
      var i :| 0 <= i < |log| && LeaveOf(log[i], e.origin);
      assert LeaveOf(log'[i], e.origin);
    case OfMessage(_) =>
  }

  lemma ProceedKeepsCauses(s: State, c: ClientId, published: set<Chat.Fanout>)
    requires AllCaused(s, published) && c in s.clients
    ensures AllCaused(Proceeded(s, c), published)
  {
    var s' := Proceeded(s, c);
    ProceedIsOwn(s, c);
    ProceedKeepsChannels(s, c);
    forall k | k in s'.flights
      ensures s'.flights[k].client in s'.clients
      ensures Caused(s'.log, published, s'.flights[k].event, s'.clients[s'.flights[k].client].user)
    {
      CausedStays(s.log, s'.log, published, s.flights[k].event, s.clients[s.flights[k].client].user);
    }
    forall d, i | d in s'.clients && 0 <= i < |s'.clients[d].channel.sent|
      ensures Caused(s'.log, published, s'.clients[d].channel.sent[i], s'.clients[d].user)
    {
      CausedStays(s.log, s'.log, published, s.clients[d].channel.sent[i], s.clients[d].user);
    }
  }

  lemma LookupIsCaused(s: State, k: nat, recipient: UserId, e: Event, published: set<Chat.Fanout>)
    requires EntriesRegistered(s) && AllCaused(s, published) && Caused(s.log, published, e, recipient)
    ensures AllCaused(LookedUp(s, k, recipient, e), published)
  {
  }

  lemma AnnouncementIsCaused(s: State, k: nat, c: ClientId, partner: UserId, published: set<Chat.Fanout>)
    requires EntriesRegistered(s) && AllRecorded(s) && AllCaused(s, published) && c in s.clients
    ensures AllCaused(Announcement(s, k, c, partner), published)
  {
    var client := s.clients[c];
    assert Recorded(s.log, c, client);
    if partner != client.user && client.phase == Running {
      var i :| 0 <= i < |s.log| && s.log[i].Joined? && s.log[i].user == client.user && s.log[i].client == c;
      assert JoinOf(s.log[i], client.user);
      LookupIsCaused(s, k, partner, Event(client.user, PresenceOnline), published);
    }
    if partner != client.user && client.phase == Removed {
      var i :| 0 <= i < |s.log| && s.log[i] == Left(client.user, c);
      assert LeaveOf(s.log[i], client.user);
      LookupIsCaused(s, k, partner, Event(client.user, PresenceOffline), published);
    }
  }

  lemma SendIsCaused(s: State, k: nat, published: set<Chat.Fanout>)
    requires AllCaused(s, published)
    ensures AllCaused(Step(s, Send(k)), published)
  {
  }

  lemma DeliverIsCaused(s: State, c: ClientId, published: set<Chat.Fanout>)
    requires AllCaused(s, published)
    ensures AllCaused(Step(s, Deliver(c)), published)
  {
  }

  lemma CausedStep(s: State, a: Act, published: set<Chat.Fanout>)
    requires EntriesRegistered(s) && AllRecorded(s) && AllCaused(s, published)
    requires a.Publish? ==> a.fanout in published
    ensures AllCaused(Step(s, a), published)
  {
    match a
    case Connect(c, user) =>
    case Proceed(c) => if c in s.clients { ProceedKeepsCauses(s, c, published); }
    case Publish(k, f) =>
      if f.passed { LookupIsCaused(s, k, f.recipient, Event(f.origin, OfMessage(f.kind)), published); }
    case Announce(k, c, partner, passed) =>
      if passed && c in s.clients { AnnouncementIsCaused(s, k, c, partner, published); }
    case Send(k) => SendIsCaused(s, k, published);
    case Deliver(c) => DeliverIsCaused(s, c, published);
  }

  lemma {:induction false} ReachableCauses(s: State, acts: seq<Act>, published: set<Chat.Fanout>)
    requires Registry(s) && AllRecorded(s) && AllCaused(s, published)
    requires forall i :: 0 <= i < |acts| && acts[i].Publish? ==> acts[i].fanout in published
    ensures AllRecorded(Run(s, acts)) && AllCaused(Run(s, acts), published)
    decreases |acts|
  {
    if acts != [] {
      RegistryStep(s, acts[0]);
      RecordedStep(s, acts[0]);
      CausedStep(s, acts[0], published);
      ReachableCauses(Step(s, acts[0]), acts[1..], published);
    }
  }

  /** An event that was looked up for a client, or sent to it. */
  ghost predicate Reaches(s: State, c: ClientId, e: Event) {
    c in s.clients && (Bound(s, c, e) || e in s.clients[c].channel.sent)
  }

  ghost predicate Bound(s: State, c: ClientId, e: Event) {
    exists k :: k in s.flights && s.flights[k] == Flight(c, e)
  }

  lemma ReachesIsCaused(s: State, c: ClientId, e: Event, published: set<Chat.Fanout>)
    requires AllCaused(s, published) && Reaches(s, c, e)
    ensures Caused(s.log, published, e, s.clients[c].user)
  {
    if Bound(s, c, e) {
      var k :| k in s.flights && s.flights[k] == Flight(c, e);
    } else {
      var i :| 0 <= i < |s.clients[c].channel.sent| && s.clients[c].channel.sent[i] == e;
    }
  }

  /** In any interleaving: whoever is told, or about to be told, that a user has gone,
      that user's connection was successfully unregistered before; and whoever is told
      that it is there, it was registered. */
  lemma PresenceHasCause(acts: seq<Act>, c: ClientId, u: UserId)
    ensures var s := Run(INITIAL, acts);
            && (Reaches(s, c, Event(u, PresenceOffline)) ==> exists i :: 0 <= i < |s.log| && LeaveOf(s.log[i], u))
            && (Reaches(s, c, Event(u, PresenceOnline)) ==> exists i :: 0 <= i < |s.log| && JoinOf(s.log[i], u))
  {
    var s := Run(INITIAL, acts);
    var any := set i | 0 <= i < |acts| && acts[i].Publish? :: acts[i].fanout;
    ReachableCauses(INITIAL, acts, any);
    if Reaches(s, c, Event(u, PresenceOffline)) {
      ReachesIsCaused(s, c, Event(u, PresenceOffline), any);
    }
    if Reaches(s, c, Event(u, PresenceOnline)) {
      ReachesIsCaused(s, c, Event(u, PresenceOnline), any);
    }
  }

  /** Every message event that reaches a client is one that a run of the message service
      made for its user, of that kind and origin, and that no block stopped. */
  lemma MessagesWerePublished(acts: seq<Act>, chat: seq<ChatMachine.Event>, c: ClientId, e: Event)
    requires PublishedBy(acts, chat) && Reaches(Run(INITIAL, acts), c, e) && e.kind.OfMessage?
    ensures exists f :: && f in ChatMachine.Run(ChatMachine.INITIAL, chat).db.fanouts && f.passed
                        && f.kind == e.kind.kind && f.origin == e.origin
                        && f.recipient == Run(INITIAL, acts).clients[c].user
  {
    var fanouts := ChatMachine.Run(ChatMachine.INITIAL, chat).db.fanouts;
    var published := set f | f in fanouts;
    ReachableCauses(INITIAL, acts, published);
    ReachesIsCaused(Run(INITIAL, acts), c, e, published);
  }

  /** An announcement that takes effect is bound for a connected user other than its
      own. That the client's user is there it says after the client registered and before
      it was removed. That it has gone it says after the client was removed, before it is
      recorded to have said so, and only if no newer connection ever replaced it. */
  ghost predicate True(s: State, s': State, k: nat, c: ClientId, partner: UserId) {
    && c in s.clients && partner in s.hub && k !in s.flights
    && var u := s.clients[c].user;
       && partner != u && HasRegistered(s.log, u, c)
       && k in s'.flights && s' == s.(flights := s.flights[k := s'.flights[k]])
       && s'.flights[k].client == s.hub[partner] && s'.flights[k].event.origin == u
       && s'.flights[k].event.kind == (if Left(u, c) in s.log then PresenceOffline else PresenceOnline)
       && (Left(u, c) in s.log ==>
             && SaidOffline(c) !in s.log
             && forall j :: 0 <= j < |s.log| && s.log[j].Joined? ==> s.log[j].replaced != Some(c))
  }

  lemma AnnouncementIsTrue(s: State, k: nat, c: ClientId, partner: UserId)
    requires LogFits(s) && c in s.clients && Recorded(s.log, c, s.clients[c])
    requires Announcement(s, k, c, partner) != s
    ensures True(s, Announcement(s, k, c, partner), k, c, partner)
  {
    var u, phase := s.clients[c].user, s.clients[c].phase;
    if Left(u, c) in s.log {
      var i :| 0 <= i < |s.log| && s.log[i] == Left(u, c);
      assert EntryFits(s, s.log[i]);
    }
    forall j | 0 <= j < |s.log| && s.log[j].Joined? && phase == Removed ensures s.log[j].replaced != Some(c) {
      assert EntryFits(s, s.log[j]);
    }
  }

  /** A client announces itself only while it runs or once it is removed. Every
      announcement in every interleaving is true; so a superseded client causes no
      offline event. */
  lemma AnnouncementsAreTrue(acts: seq<Act>, k: nat, c: ClientId, partner: UserId, passed: bool)
    ensures var s := Run(INITIAL, acts);
            var s' := Step(s, Announce(k, c, partner, passed));
            && (s' != s <==> && passed && k !in s.flights && partner in s.hub
                             && c in s.clients && partner != s.clients[c].user
                             && (s.clients[c].phase == Running || s.clients[c].phase == Removed))
            && (s' != s ==> True(s, s', k, c, partner))
  {
    var s := Run(INITIAL, acts);
    Reachable(INITIAL, acts);
    ReachableCauses(INITIAL, acts, set i | 0 <= i < |acts| && acts[i].Publish? :: acts[i].fanout);
    if passed && c in s.clients && Announcement(s, k, c, partner) != s {
      AnnouncementIsTrue(s, k, c, partner);
    }
  }

  // ---- The life of a connection ----

  lemma RunOn(s: State, a: Act, acts: seq<Act>, s': State)
    requires s' == Step(s, a)
    ensures Run(s, [a] + acts) == Run(s', acts)
  {
    assert ([a] + acts)[1..] == acts;
  }

  function Life(c: ClientId, n: nat): seq<Act> {
    if n == 0 then [] else [Proceed(c)] + Life(c, n - 1)
  }

  lemma {:induction false} LifeAppend(s: State, c: ClientId, n: nat)
    ensures Run(s, Life(c, n + 1)) == Step(Run(s, Life(c, n)), Proceed(c))
    decreases n
  {
    RunOn(s, Proceed(c), Life(c, n), Step(s, Proceed(c)));
    if n > 0 {
      RunOn(s, Proceed(c), Life(c, n - 1), Step(s, Proceed(c)));
      LifeAppend(Step(s, Proceed(c)), c, n - 1);
    }
  }

  /** Where a client is after `n` steps, and after one more. */
  lemma LifeGoesOn(s: State, c: ClientId, n: nat, t: State, t': State)
    requires t == Run(s, Life(c, n)) && c in t.clients && t' == Proceeded(t, c)
    ensures t' == Run(s, Life(c, n + 1))
  {
    LifeAppend(s, c, n);
  }

  /** A client that registers takes its user's entry and closes the client that had it. */
  lemma ClientRegisters(s: State, c: ClientId)
    requires Registry(s) && c in s.clients && s.clients[c].phase == Opened
    ensures var t := Run(s, Life(c, 2)); var user := s.clients[c].user;
            && t.hub == s.hub[user := c] && t.flights == s.flights
            && t.log == s.log + [Joined(user, c, if user in s.hub then Some(s.hub[user]) else None)]
            && c in t.clients && t.clients[c] == s.clients[c].(phase := Running)
            && (user in s.hub ==> s.hub[user] in t.clients && t.clients[s.hub[user]].closed)
  {
    var s1 := WithClient(s, c, s.clients[c].(phase := Online));
    var s2 := Register(s1, c);
    LifeGoesOn(s, c, 0, s, s1);
    LifeGoesOn(s, c, 1, s1, s2);
  }

  lemma Unregisters(s: State, c: ClientId)
    requires Registry(s) && c in s.clients && s.clients[c].phase == Running && !s.clients[c].closed
    ensures var user := s.clients[c].user;
            && user in s.hub
            && Run(s, Life(c, 2))
               == State(s.hub - {user}, s.clients[c := s.clients[c].(phase := Removed)], s.flights,
                        s.log + [Left(user, c)])
  {
    var client := s.clients[c];
    var s1 := WithClient(s, c, client.(phase := Ended));
    LifeGoesOn(s, c, 0, s, s1);
    LifeGoesOn(s, c, 1, s1, Unregister(s1, c));
  }

  lemma SaysGoodbye(s: State, c: ClientId, n: nat, t: State)
    requires t == Run(s, Life(c, n)) && c in t.clients && t.clients[c].phase == Removed
    ensures Run(s, Life(c, n + 3))
            == t.(clients := t.clients[c := t.clients[c].(phase := Gone(true), closed := true)],
                  log := t.log + [SaidOffline(c)] + [ClearedPresence(c)])
  {
    var client := t.clients[c];
    var t1 := WithClient(t, c, client.(phase := Announced)).(log := t.log + [SaidOffline(c)]);
    var t2 := WithClient(t1, c, client.(phase := Cleared)).(log := t1.log + [ClearedPresence(c)]);
    LifeGoesOn(s, c, n, t, t1);
    LifeGoesOn(s, c, n + 1, t1, t2);
    LifeGoesOn(s, c, n + 2, t2, WithClient(t2, c, client.(phase := Gone(true), closed := true)));
  }

  /** A client that ends while it is its user's entry clears it, says so once, clears the
      presence, and is closed. */
  lemma ClientLeaves(s: State, c: ClientId)
    requires Registry(s) && c in s.clients && s.clients[c].phase == Running && !s.clients[c].closed
    ensures var user := s.clients[c].user;
            && user in s.hub
            && Run(s, Life(c, 5))
               == State(s.hub - {user}, s.clients[c := s.clients[c].(phase := Gone(true), closed := true)], s.flights,
                        s.log + [Left(user, c)] + [SaidOffline(c)] + [ClearedPresence(c)])
  {
    Unregisters(s, c);
    SaysGoodbye(s, c, 2, Run(s, Life(c, 2)));
  }

  /** A client that ends after a newer one has closed it leaves entry, log and presence as
      they are. */
  lemma ClientSuperseded(s: State, c: ClientId)
    requires Registry(s) && c in s.clients && s.clients[c].phase == Running && s.clients[c].closed
    ensures Run(s, Life(c, 3)) == s.(clients := s.clients[c := s.clients[c].(phase := Gone(false))])
  {
    var client := s.clients[c];
    var s1 := WithClient(s, c, client.(phase := Ended));
    var s2 := WithClient(s, c, client.(phase := Superseded));
    LifeGoesOn(s, c, 0, s, s1);
    LifeGoesOn(s, c, 1, s1, s2);
    LifeGoesOn(s, c, 2, s2, WithClient(s, c, client.(phase := Gone(false))));
  }

  // ---- What was looked up is sent ----

  lemma {:induction false} FlightStays(s: State, acts: seq<Act>, k: nat)
    requires k in s.flights && forall i :: 0 <= i < |acts| ==> acts[i] != Send(k)
    ensures k in Run(s, acts).flights && Run(s, acts).flights[k] == s.flights[k]
    decreases |acts|
  {
    if acts != [] {
      assert acts[0] != Send(k);
      FlightKept(s, acts[0], k);
      FlightStays(Step(s, acts[0]), acts[1..], k);
    }
  }

  lemma FlightKept(s: State, a: Act, k: nat)
    requires k in s.flights && a != Send(k)
    ensures k in Step(s, a).flights && Step(s, a).flights[k] == s.flights[k]
  {
    if a.Proceed? && a.client in s.clients { ProceedKeepsChannels(s, a.client); }
  }

  /** What was looked up, of messages or of presence, is sent to the connection there was
      then, once its send comes and whatever came in between. */
  lemma FlightIsSent(s: State, acts: seq<Act>, k: nat)
    requires k in s.flights && s.flights[k].client in s.clients
    requires forall i :: 0 <= i < |acts| ==> acts[i] != Send(k)
    ensures var c := s.flights[k].client; var t := Run(s, acts);
            && c in t.clients && t.clients[c].user == s.clients[c].user && k in t.flights
            && var t' := Step(t, Send(k));
               && c in t'.clients && k !in t'.flights
               && t'.clients[c].channel.sent == t.clients[c].channel.sent + [s.flights[k].event]
  {
    FlightStays(s, acts, k);
    AcceptedStays(s, acts, s.flights[k].client);
    SendAccepts(Run(s, acts).clients[s.flights[k].client].channel, s.flights[k].event);
  }

  /** An event published for a connected user, and not stopped by a block, is looked up
      for that user's connection. */
  lemma PublishedIsLookedUp(acts: seq<Act>, k: nat, f: Chat.Fanout)
    requires var s := Run(INITIAL, acts); f.passed && f.recipient in s.hub && k !in s.flights
    ensures var s := Run(INITIAL, acts); var c := s.hub[f.recipient]; var s' := Step(s, Publish(k, f));
            && c in s.clients && s.clients[c].user == f.recipient && IsRegistered(s.clients[c].phase)
            && s' == s.(flights := s.flights[k := Flight(c, Event(f.origin, OfMessage(f.kind)))])
  {
    Reachable(INITIAL, acts);
  }

  // ---- What a queue has taken in stays ----

  lemma StepAccepts(s: State, a: Act, c: ClientId)
    requires c in s.clients
    ensures var s' := Step(s, a);
            && c in s'.clients && s'.clients[c].user == s.clients[c].user
            && s.clients[c].channel.sent <= s'.clients[c].channel.sent
            && Accepted(s.clients[c].channel) <= Accepted(s'.clients[c].channel)
            && s.clients[c].channel.delivered <= s'.clients[c].channel.delivered
  {
    match a
    case Proceed(d) => if d in s.clients { ProceedKeepsChannels(s, d); }
    case Send(k) =>
      if k in s.flights && s.flights[k].client == c { SendAccepts(s.clients[c].channel, s.flights[k].event); }
    case Deliver(d) => TakeDelivers(s.clients[c].channel);
    case _ =>
  }

  /** In any interleaving: what a client's queue has taken in is delivered in that order,
      whatever is sent later; a full queue never gives up an older event for a newer. */
  lemma {:induction false} AcceptedStays(s: State, acts: seq<Act>, c: ClientId)
    requires c in s.clients
    ensures var t := Run(s, acts);
            && c in t.clients && t.clients[c].user == s.clients[c].user
            && s.clients[c].channel.sent <= t.clients[c].channel.sent
            && Accepted(s.clients[c].channel) <= Accepted(t.clients[c].channel)
            && s.clients[c].channel.delivered <= t.clients[c].channel.delivered
    decreases |acts|
  {
    if acts != [] {
      StepAccepts(s, acts[0], c);
      AcceptedStays(Step(s, acts[0]), acts[1..], c);
    }
  }

  function Deliveries(acts: seq<Act>, c: ClientId): nat
    decreases |acts|
  {
    if acts == [] then 0 else Deliveries(acts[1..], c) + if acts[0] == Deliver(c) then 1 else 0
  }

  lemma {:induction false} DeliveriesCount(s: State, acts: seq<Act>, c: ClientId)
    requires c in s.clients
    ensures var t := Run(s, acts);
            && c in t.clients
            && (|| |t.clients[c].channel.delivered| >= |Accepted(s.clients[c].channel)|
                || |t.clients[c].channel.delivered| >= |s.clients[c].channel.delivered| + Deliveries(acts, c))
    decreases |acts|
  {
    if acts != [] {
      var s' := Step(s, acts[0]);
      StepAccepts(s, acts[0], c);
      DeliveriesCount(s', acts[1..], c);
      if acts[0] == Deliver(c) {
        TakeDelivers(s.clients[c].channel);
        assert s'.clients[c].channel == Taken(s.clients[c].channel);
      }
    }
  }

  /** All that waits in a queue has been delivered once there have been as many
      deliveries, whatever was sent meanwhile. */
  lemma WaitingIsDelivered(s: State, acts: seq<Act>, c: ClientId)
    requires c in s.clients && Deliveries(acts, c) >= |s.clients[c].channel.queue|
    ensures var t := Run(s, acts);
            c in t.clients && Accepted(s.clients[c].channel) <= t.clients[c].channel.delivered
  {
    DeliveriesCount(s, acts, c);
    AcceptedStays(s, acts, c);
  }
}
