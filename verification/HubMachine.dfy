/** Any number of connections, interleaved: each registers, runs, ends and unregisters,
    while events are looked up, sent and delivered. */
module HubMachine {
  import opened Common
  import opened Channel
  import Chat
  import ChatMachine
  import ChatRows
  import Hub

  type ClientId = nat

  /** Where `Run` of a client is. */
  datatype Phase =
    | Opened                       // before the first SetOnline
    | Online                       // before Register
    | Running                      // registered, the read pump still reads
    | Ended                        // the read pump has returned
    | Removed                      // Unregister answered true
    | Announced                    // presence.offline has been fanned out
    | Cleared                      // SetOffline has been called
    | Superseded                   // Unregister answered false
    | Gone(wasRemoved: bool)       // Run has returned

  datatype Client = Client(user: UserId, phase: Phase, closed: bool, channel: Channel)

  datatype Entry =
    | Joined(user: UserId, client: ClientId, replaced: Option<ClientId>)
    | Left(user: UserId, client: ClientId)
    | SaidOffline(client: ClientId)
    | ClearedPresence(client: ClientId)

  /** An event on its way: the client was looked up, the send is still to come. */
  datatype Flight = Flight(client: ClientId, event: Event)

  datatype State = State(hub: map<UserId, ClientId>, clients: map<ClientId, Client>,
                         flights: map<nat, Flight>, log: seq<Entry>)

  datatype Act =
    | Connect(client: ClientId, user: UserId)
    | Proceed(client: ClientId)
    | Publish(flight: nat, fanout: Chat.Fanout)
    | Announce(flight: nat, client: ClientId, partner: UserId, passed: bool)
    | Send(flight: nat)
    | Deliver(client: ClientId)

  function WithClient(s: State, c: ClientId, client: Client): State {
    s.(clients := s.clients[c := client])
  }

  function Register(s: State, c: ClientId): State
    requires c in s.clients
  {
    var user := s.clients[c].user;
    var previous := if user in s.hub then Some(s.hub[user]) else None;
    var closed := if previous.Some? && previous.value in s.clients
                  then s.clients[previous.value := s.clients[previous.value].(closed := true)]
                  else s.clients;
    State(Hub.Registered(s.hub, user, c), closed[c := s.clients[c].(phase := Running)], s.flights,
          s.log + [Joined(user, c, previous)])
  }

  function Unregister(s: State, c: ClientId): State
    requires c in s.clients
  {
    var client := s.clients[c];
    if Hub.IsCurrent(s.hub, client.user, c)
    then State(Hub.Unregistered(s.hub, client.user, c), s.clients[c := client.(phase := Removed)], s.flights,
               s.log + [Left(client.user, c)])
    else WithClient(s, c, client.(phase := Superseded))
  }

  function Proceeded(s: State, c: ClientId): State
    requires c in s.clients
  {
    var client := s.clients[c];
    match client.phase
    case Opened => WithClient(s, c, client.(phase := Online))
    case Online => Register(s, c)
    case Running => WithClient(s, c, client.(phase := Ended))
    case Ended => Unregister(s, c)
    case Removed => WithClient(s, c, client.(phase := Announced)).(log := s.log + [SaidOffline(c)])
    case Announced => WithClient(s, c, client.(phase := Cleared)).(log := s.log + [ClearedPresence(c)])
    case Cleared => WithClient(s, c, client.(phase := Gone(true), closed := true))
    case Superseded => WithClient(s, c, client.(phase := Gone(false), closed := true))
    case Gone(_) => s
  }

  /** The recipient of an event that passed the block check is looked up. */
  function LookedUp(s: State, flight: nat, recipient: UserId, e: Event): State {
    if flight !in s.flights && recipient in s.hub
    then s.(flights := s.flights[flight := Flight(s.hub[recipient], e)])
    else s
  }

  /** A client fans its presence out to its conversation partners, skipping its own user:
      that it is there while it runs, that it is gone once it is removed. */
  function Announcement(s: State, flight: nat, c: ClientId, partner: UserId): State
    requires c in s.clients
  {
    var client := s.clients[c];
    if partner == client.user then s
    else if client.phase == Running then LookedUp(s, flight, partner, Event(client.user, PresenceOnline))
    else if client.phase == Removed then LookedUp(s, flight, partner, Event(client.user, PresenceOffline))
    else s
  }

  function Step(s: State, a: Act): State {
    match a
    case Connect(c, user) => if c in s.clients then s else WithClient(s, c, Client(user, Opened, false, EMPTY))
    case Proceed(c) => if c in s.clients then Proceeded(s, c) else s
    case Publish(k, f) => if f.passed then LookedUp(s, k, f.recipient, Event(f.origin, OfMessage(f.kind))) else s
    case Announce(k, c, partner, passed) =>
      if passed && c in s.clients then Announcement(s, k, c, partner) else s
    case Send(k) =>
      if k in s.flights && s.flights[k].client in s.clients then
        var c := s.flights[k].client;
        var client := s.clients[c].(channel := Sent(s.clients[c].channel, s.flights[k].event));
        WithClient(s, c, client).(flights := s.flights - {k})
      else s
    case Deliver(c) =>
      if c in s.clients then WithClient(s, c, s.clients[c].(channel := Taken(s.clients[c].channel))) else s
  }

  function Run(s: State, acts: seq<Act>): State
    decreases |acts|
  {
    if acts == [] then s else Run(Step(s, acts[0]), acts[1..])
  }

  const INITIAL := State(map[], map[], map[], [])

  // ---- The registry and the clients agree ----

  predicate IsRegistered(p: Phase) {
    p == Running || p == Ended
  }

  /** Every entry of the registry is a registered client of that user. */
  ghost predicate EntriesRegistered(s: State) {
    forall u :: u in s.hub ==>
                  s.hub[u] in s.clients && s.clients[s.hub[u]].user == u && IsRegistered(s.clients[s.hub[u]].phase)
  }

  /** A client between Register and Unregister is either its user's entry or closed, and
      not both. */
  ghost predicate EntryOrClosed(s: State) {
    forall c :: c in s.clients ==>
                  && (IsRegistered(s.clients[c].phase) ==>
                        (Hub.IsCurrent(s.hub, s.clients[c].user, c) <==> !s.clients[c].closed))
                  && (s.clients[c].phase.Opened? || s.clients[c].phase.Online? ==> !s.clients[c].closed)
  }

  ghost predicate Registry(s: State) {
    EntriesRegistered(s) && EntryOrClosed(s)
  }

  lemma RegisterKeepsRegistry(s: State, c: ClientId)
    requires Registry(s) && c in s.clients && s.clients[c].phase == Online
    ensures Registry(Register(s, c))
  {
  }

  lemma UnregisterKeepsRegistry(s: State, c: ClientId)
    requires Registry(s) && c in s.clients && s.clients[c].phase == Ended
    ensures Registry(Unregister(s, c))
  {
  }

  /** Elsewhere a client goes on without the registry. */
  lemma ProceedKeepsRegistry(s: State, c: ClientId)
    requires Registry(s) && c in s.clients
    ensures Registry(Proceeded(s, c))
  {
    var client := s.clients[c];
    match client.phase
    case Online => RegisterKeepsRegistry(s, c);
    case Ended => UnregisterKeepsRegistry(s, c);
    case _ =>
  }

  /** What other steps leave of the registry and the clients. */
  lemma OthersKeepRegistry(s: State, a: Act)
    requires Registry(s) && !a.Proceed?
    ensures Registry(Step(s, a))
  {
  }

  lemma RegistryStep(s: State, a: Act)
    requires Registry(s)
    ensures Registry(Step(s, a))
  {
    if a.Proceed? {
      if a.client in s.clients { ProceedKeepsRegistry(s, a.client); }
    } else {
      OthersKeepRegistry(s, a);
    }
  }

  // ---- The books ----

  predicate JoinOf(e: Entry, u: UserId) {
    e.Joined? && e.user == u
  }

  predicate ReplacementOf(e: Entry, u: UserId) {
    e.Joined? && e.user == u && e.replaced.Some?
  }

  predicate LeaveOf(e: Entry, u: UserId) {
    e.Left? && e.user == u
  }

  function Joins(log: seq<Entry>, u: UserId): nat {
    if log == [] then 0 else Joins(log[..|log| - 1], u) + if JoinOf(log[|log| - 1], u) then 1 else 0
  }

  function Replacements(log: seq<Entry>, u: UserId): nat {
    if log == [] then 0 else Replacements(log[..|log| - 1], u) + if ReplacementOf(log[|log| - 1], u) then 1 else 0
  }

  function Leaves(log: seq<Entry>, u: UserId): nat {
    if log == [] then 0 else Leaves(log[..|log| - 1], u) + if LeaveOf(log[|log| - 1], u) then 1 else 0
  }

  /** Per user: registrations are replacements, successful unregistrations, and the
      connection that is there now. */
  ghost predicate Balanced(s: State) {
    forall u :: Joins(s.log, u) == Replacements(s.log, u) + Leaves(s.log, u) + if u in s.hub then 1 else 0
  }

  // ---- Going offline ----

  /** What the log says about a client fits where the client is. */
  ghost predicate EntryFits(s: State, e: Entry) {
    match e
    case Joined(_, c, replaced) =>
      && (replaced.Some? ==>
            && replaced.value in s.clients && s.clients[replaced.value].closed
            && (|| IsRegistered(s.clients[replaced.value].phase)
                || s.clients[replaced.value].phase in {Superseded, Gone(false)}))
    case Left(_, c) => c in s.clients && s.clients[c].phase in {Removed, Announced, Cleared, Gone(true)}
    case SaidOffline(c) => c in s.clients && s.clients[c].phase in {Announced, Cleared, Gone(true)}
    case ClearedPresence(c) => c in s.clients && s.clients[c].phase in {Cleared, Gone(true)}
  }

  ghost predicate OncePerClient(log: seq<Entry>) {
    forall i, j :: 0 <= i < j < |log| && !log[i].Joined? ==> log[i] != log[j]
  }

  ghost predicate LogFits(s: State) {
    (forall i :: 0 <= i < |s.log| ==> EntryFits(s, s.log[i])) && OncePerClient(s.log)
  }

  lemma RegisterFits(s: State, c: ClientId, e: Entry)
    requires Registry(s) && c in s.clients && s.clients[c].phase == Online && EntryFits(s, e)
    ensures EntryFits(Register(s, c), e)
  {
  }

  lemma UnregisterFits(s: State, c: ClientId, e: Entry)
    requires Registry(s) && c in s.clients && s.clients[c].phase == Ended && EntryFits(s, e)
    ensures EntryFits(Unregister(s, c), e)
  {
  }

  lemma ProceedFits(s: State, c: ClientId, e: Entry)
    requires Registry(s) && c in s.clients && EntryFits(s, e)
    ensures EntryFits(Proceeded(s, c), e)
  {
    match s.clients[c].phase
    case Online => RegisterFits(s, c, e);
    case Ended => UnregisterFits(s, c, e);
    case _ =>
  }

  /** What an entry says about the registry. */
  ghost predicate HubFollows(before: map<UserId, ClientId>, after: map<UserId, ClientId>, e: Entry) {
    match e
    case Joined(u, c, replaced) => after == before[u := c] && (replaced.Some? <==> u in before)
    case Left(u, _) => u in before && after == before - {u}
    case _ => after == before
  }

  lemma BalancedAppend(s: State, s': State, e: Entry)
    requires Balanced(s) && s'.log == s.log + [e] && HubFollows(s.hub, s'.hub, e)
    ensures Balanced(s')
  {
  }

  /** A step that writes nothing leaves the registry as it is. */
  lemma SilentKeepsHub(s: State, a: Act)
    requires Step(s, a).log == s.log
    ensures Step(s, a).hub == s.hub
  {
  }

  lemma BalancedStep(s: State, a: Act)
    requires Registry(s) && Balanced(s)
    ensures Balanced(Step(s, a))
  {
    var s' := Step(s, a);
    if a.Proceed? && a.client in s.clients && s'.log != s.log {
      ProceedWrites(s, a.client);
      BalancedAppend(s, s', s'.log[|s.log|]);
    } else {
      SilentKeepsHub(s, a);
    }
  }

  /** The entry a client's progress writes, if any. */
  lemma ProceedWrites(s: State, c: ClientId)
    requires Registry(s) && c in s.clients && Proceeded(s, c).log != s.log
    ensures var s' := Proceeded(s, c);
            && |s'.log| == |s.log| + 1 && s'.log == s.log + [s'.log[|s.log|]]
            && EntryFits(s', s'.log[|s.log|])
            && (!s'.log[|s.log|].Joined? ==> !EntryFits(s, s'.log[|s.log|]))
            && HubFollows(s.hub, s'.hub, s'.log[|s.log|])
  {
  }

  lemma LogFitsStep(s: State, a: Act)
    requires Registry(s) && LogFits(s)
    ensures LogFits(Step(s, a))
  {
    var s' := Step(s, a);
    if a.Proceed? && a.client in s.clients {
      if s'.log != s.log {
        ProceedWrites(s, a.client);
      }
      forall i | 0 <= i < |s'.log| ensures EntryFits(s', s'.log[i]) {
        if i < |s.log| {
          assert s'.log[i] == s.log[i];
          ProceedFits(s, a.client, s.log[i]);
        }
      }
    } else {
      assert s'.log == s.log;
      forall i | 0 <= i < |s.log| ensures EntryFits(s', s.log[i]) {
        assert EntryFits(s, s.log[i]);
      }
    }
  }

  // ---- Leaving and joining alternate ----

  ghost predicate JoinedBetween(log: seq<Entry>, i: nat, j: nat, u: UserId) {
    exists k :: i < k < j && k < |log| && JoinOf(log[k], u)
  }

  ghost predicate Alternates(s: State) {
    && (forall i, j, u :: 0 <= i < j < |s.log| && LeaveOf(s.log[i], u) && LeaveOf(s.log[j], u) ==>
                            JoinedBetween(s.log, i, j, u))
    && (forall i, u :: 0 <= i < |s.log| && LeaveOf(s.log[i], u) && u in s.hub ==>
                         JoinedBetween(s.log, i, |s.log|, u))
  }

  lemma JoinedStays(log: seq<Entry>, e: Entry, i: nat, j: nat, u: UserId)
    requires JoinedBetween(log, i, j, u) && j <= |log|
    ensures JoinedBetween(log + [e], i, j, u) && JoinedBetween(log + [e], i, |log| + 1, u)
  {
    var k :| i < k < j && k < |log| && JoinOf(log[k], u);
    assert (log + [e])[k] == log[k];
  }

  lemma AlternatesAppend(s: State, s': State, e: Entry)
    requires Alternates(s) && s'.log == s.log + [e]
    requires HubFollows(s.hub, s'.hub, e)
    ensures Alternates(s')
  {
    var n := |s.log|;
    forall i, j, u | 0 <= i < j < |s'.log| && LeaveOf(s'.log[i], u) && LeaveOf(s'.log[j], u)
      ensures JoinedBetween(s'.log, i, j, u)
    {
      assert LeaveOf(s.log[i], u);
      if j < n { assert LeaveOf(s.log[j], u); }
      JoinedStays(s.log, e, i, j, u);
    }
    forall i, u | 0 <= i < |s'.log| && LeaveOf(s'.log[i], u) && u in s'.hub
      ensures JoinedBetween(s'.log, i, |s'.log|, u)
    {
      if JoinOf(e, u) {
        assert JoinOf(s'.log[n], u);
      } else {
        assert i < n && LeaveOf(s.log[i], u);
        JoinedStays(s.log, e, i, n, u);
      }
    }
  }

  lemma AlternatesStep(s: State, a: Act)
    requires Registry(s) && Alternates(s)
    ensures Alternates(Step(s, a))
  {
    var s' := Step(s, a);
    if a.Proceed? && a.client in s.clients && s'.log != s.log {
      ProceedWrites(s, a.client);
      AlternatesAppend(s, s', s'.log[|s.log|]);
    }
  }

  // ---- Queues ----

  ghost predicate Addressed(c: Client) {
    Faithful(c.channel) && forall i :: 0 <= i < |c.channel.sent| ==> c.channel.sent[i].origin != c.user
  }

  ghost predicate Queues(s: State) {
    && (forall c :: c in s.clients ==> Addressed(s.clients[c]))
    && (forall k :: k in s.flights ==>
                      && s.flights[k].client in s.clients
                      && s.flights[k].event.origin != s.clients[s.flights[k].client].user)
  }

  /** Changing a client's channel, or its place in `Run`, keeps flights addressed. */
  lemma QueuesKept(s: State, s': State)
    requires Queues(s)
    requires forall c :: c in s.clients ==> c in s'.clients && s'.clients[c].user == s.clients[c].user
    requires forall c :: c in s'.clients ==> Addressed(s'.clients[c])
    requires forall k :: k in s'.flights ==> k in s.flights && s'.flights[k] == s.flights[k]
    ensures Queues(s')
  {
  }

  lemma SendKeepsQueues(s: State, k: nat)
    requires Queues(s) && k in s.flights
    ensures Queues(Step(s, Send(k)))
  {
    var f := s.flights[k];
    var ch := s.clients[f.client].channel;
    SendFaithful(ch, f.event);
    assert Addressed(s.clients[f.client]);
    assert Addressed(s.clients[f.client].(channel := Sent(ch, f.event)));
    QueuesKept(s, Step(s, Send(k)));
  }

  lemma DeliverKeepsQueues(s: State, c: ClientId)
    requires Queues(s) && c in s.clients
    ensures Queues(Step(s, Deliver(c)))
  {
    TakeFaithful(s.clients[c].channel);
    assert Addressed(s.clients[c]);
    assert Addressed(s.clients[c].(channel := Taken(s.clients[c].channel)));
    QueuesKept(s, Step(s, Deliver(c)));
  }

  ghost predicate SameChannels(s: State, s': State) {
    && s'.flights == s.flights && s'.clients.Keys == s.clients.Keys
    && forall d :: d in s.clients ==>
                     s'.clients[d].user == s.clients[d].user && s'.clients[d].channel == s.clients[d].channel
  }

  lemma RegisterKeepsChannels(s: State, c: ClientId)
    requires c in s.clients
    ensures SameChannels(s, Register(s, c))
  {
  }

  lemma UnregisterKeepsChannels(s: State, c: ClientId)
    requires c in s.clients
    ensures SameChannels(s, Unregister(s, c))
  {
  }

  /** A client's progress changes neither users nor channels. */
  lemma ProceedKeepsChannels(s: State, c: ClientId)
    requires c in s.clients
    ensures SameChannels(s, Proceeded(s, c))
  {
    match s.clients[c].phase
    case Online => RegisterKeepsChannels(s, c);
    case Ended => UnregisterKeepsChannels(s, c);
    case _ =>
  }

  lemma ProceedKeepsQueues(s: State, c: ClientId)
    requires Queues(s) && c in s.clients
    ensures Queues(Proceeded(s, c))
  {
    ProceedKeepsChannels(s, c);
    var s' := Proceeded(s, c);
    forall d | d in s'.clients ensures Addressed(s'.clients[d]) {
      assert Addressed(s.clients[d]);
    }
  }

  lemma ConnectKeepsQueues(s: State, c: ClientId, user: UserId)
    requires Queues(s) && c !in s.clients
    ensures Queues(WithClient(s, c, Client(user, Opened, false, EMPTY)))
  {
    EmptyFaithful();
    assert Addressed(Client(user, Opened, false, EMPTY));
  }

  lemma LookupKeepsQueues(s: State, k: nat, recipient: UserId, e: Event)
    requires EntriesRegistered(s) && Queues(s) && e.origin != recipient
    ensures Queues(LookedUp(s, k, recipient, e))
  {
  }

  /** A published event is addressed to someone else than its origin. */
  predicate Outward(a: Act) {
    a.Publish? ==> a.fanout.origin != a.fanout.recipient
  }

  lemma QueuesStep(s: State, a: Act)
    requires Registry(s) && Queues(s) && Outward(a)
    ensures Queues(Step(s, a))
  {
    match a
    case Send(k) => if k in s.flights { SendKeepsQueues(s, k); }
    case Deliver(c) => if c in s.clients { DeliverKeepsQueues(s, c); }
    case Connect(c, user) => if c !in s.clients { ConnectKeepsQueues(s, c, user); }
    case Proceed(c) => if c in s.clients { ProceedKeepsQueues(s, c); }
    case Publish(k, f) => LookupKeepsQueues(s, k, f.recipient, Event(f.origin, OfMessage(f.kind)));
    case Announce(k, c, partner, _) =>
      if c in s.clients && partner != s.clients[c].user {
        LookupKeepsQueues(s, k, partner, Event(s.clients[c].user, PresenceOnline));
        LookupKeepsQueues(s, k, partner, Event(s.clients[c].user, PresenceOffline));
      }
  }

  // ---- Every reachable state ----

  ghost predicate Invariant(s: State) {
    Registry(s) && Balanced(s) && LogFits(s) && Alternates(s)
  }

  lemma {:induction false} Reachable(s: State, acts: seq<Act>)
    requires Invariant(s)
    ensures Invariant(Run(s, acts))
    decreases |acts|
  {
    if acts != [] {
      RegistryStep(s, acts[0]);
      BalancedStep(s, acts[0]);
      LogFitsStep(s, acts[0]);
      AlternatesStep(s, acts[0]);
      Reachable(Step(s, acts[0]), acts[1..]);
    }
  }

  lemma {:induction false} ReachableQueues(s: State, acts: seq<Act>)
    requires Registry(s) && Queues(s)
    requires forall i :: 0 <= i < |acts| ==> Outward(acts[i])
    ensures Queues(Run(s, acts))
    decreases |acts|
  {
    if acts != [] {
      RegistryStep(s, acts[0]);
      QueuesStep(s, acts[0]);
      ReachableQueues(Step(s, acts[0]), acts[1..]);
    }
  }

  /** Every event published by a run of the message service is outward: its sender is
      one participant of the conversation and its recipient the other. */
  ghost predicate PublishedBy(acts: seq<Act>, chat: seq<ChatMachine.Event>) {
    forall i :: 0 <= i < |acts| && acts[i].Publish? ==>
                  acts[i].fanout in ChatMachine.Run(ChatMachine.INITIAL, chat).db.fanouts
  }

  lemma PublishedIsOutward(acts: seq<Act>, chat: seq<ChatMachine.Event>)
    requires PublishedBy(acts, chat)
    ensures forall i :: 0 <= i < |acts| ==> Outward(acts[i])
  {
    forall i | 0 <= i < |acts| ensures Outward(acts[i]) {
      if acts[i].Publish? {
        ChatRows.NobodyHearsThemselves(chat, acts[i].fanout);
      }
    }
  }

  /** In any interleaving a client between Register and Unregister is its user's entry,
      unless a newer connection has closed it; and for each user the registrations are
      the replacements, the successful unregistrations and the connection there is. */
  lemma RegistryBalanced(acts: seq<Act>, u: UserId)
    ensures var s := Run(INITIAL, acts);
            && (forall c :: c in s.clients && s.clients[c].user == u && IsRegistered(s.clients[c].phase) ==>
                              (Hub.IsCurrent(s.hub, u, c) <==> !s.clients[c].closed))
            && Joins(s.log, u) == Replacements(s.log, u) + Leaves(s.log, u) + if u in s.hub then 1 else 0
  {
    Reachable(INITIAL, acts);
  }

  /** Between two successful unregistrations of a user there is a registration of it. */
  lemma LeavesAlternate(acts: seq<Act>, i: nat, j: nat, u: UserId)
    requires var log := Run(INITIAL, acts).log; i < j < |log| && LeaveOf(log[i], u) && LeaveOf(log[j], u)
    ensures exists k :: i < k < j && JoinOf(Run(INITIAL, acts).log[k], u)
  {
    Reachable(INITIAL, acts);
    var log := Run(INITIAL, acts).log;
    assert JoinedBetween(log, i, j, u);
    var k :| i < k < j && JoinOf(log[k], u);
  }

  /** Presence is announced gone and cleared at most once for a client, and never for
      one that a newer connection replaced. */
  lemma OfflineOnce(acts: seq<Act>, i: nat, j: nat, c: ClientId)
    requires var log := Run(INITIAL, acts).log; i < |log| && j < |log|
    requires var log := Run(INITIAL, acts).log; log[i] == SaidOffline(c) || log[i] == ClearedPresence(c)
    ensures var log := Run(INITIAL, acts).log;
            (log[j] == log[i] ==> i == j) && !(log[j].Joined? && log[j].replaced == Some(c))
  {
    Reachable(INITIAL, acts);
    var s := Run(INITIAL, acts);
    assert EntryFits(s, s.log[i]) && EntryFits(s, s.log[j]);
  }

  /** Of each client, in any interleaving of connections with any run of the message
      service: what was delivered and what is queued is an in-order part of what was
      sent to it, the queue is bounded, nothing is missing if nothing was dropped, and
      nothing in it comes from its own user. */
  lemma QueuesFaithful(acts: seq<Act>, chat: seq<ChatMachine.Event>, c: ClientId)
    requires PublishedBy(acts, chat)
    requires c in Run(INITIAL, acts).clients
    ensures var client := Run(INITIAL, acts).clients[c]; var ch := client.channel;
            && |ch.queue| <= QUEUE_CAPACITY
            && Subsequence(ch.delivered + ch.queue, ch.sent)
            && (ch.lost == 0 ==> ch.delivered + ch.queue == ch.sent)
            && forall e :: e in ch.queue ==> e.origin != client.user
  {
    PublishedIsOutward(acts, chat);
    ReachableQueues(INITIAL, acts);
    var client := Run(INITIAL, acts).clients[c];
    var ch := client.channel;
    assert Addressed(client);
    NothingLost(ch);
    QueuedWasSent(ch, client.user);
  }

  lemma QueuedWasSent(ch: Channel, user: UserId)
    requires Faithful(ch) && forall i :: 0 <= i < |ch.sent| ==> ch.sent[i].origin != user
    ensures forall e :: e in ch.queue ==> e.origin != user
  {
    var at :| Embeds(at, ch.delivered + ch.queue, ch.sent);
    forall e | e in ch.queue ensures e.origin != user {
      var i :| 0 <= i < |ch.queue| && ch.queue[i] == e;
      assert (ch.delivered + ch.queue)[|ch.delivered| + i] == e;
    }
  }

  // ---- What arrives after a block ----

  function CountFrom(events: seq<Event>, origin: UserId): nat {
    if events == [] then 0
    else CountFrom(events[..|events| - 1], origin) + if events[|events| - 1].origin == origin then 1 else 0
  }

  lemma CountOneMore(events: seq<Event>, e: Event, origin: UserId)
    ensures CountFrom(events + [e], origin) == CountFrom(events, origin) + if e.origin == origin then 1 else 0
  {
    assert (events + [e])[..|events|] == events;
  }

  /** The events from this origin that were looked up for a client and not yet sent. */
  ghost function Aloft(s: State, c: ClientId, origin: UserId): set<nat> {
    set k | k in s.flights && s.flights[k].client == c && s.flights[k].event.origin == origin
  }

  /** A step that looks up an event from one user to another. */
  predicate LooksUp(s: State, a: Act, from: UserId, to: UserId) {
    || (a.Publish? && a.fanout.passed && a.fanout.origin == from && a.fanout.recipient == to)
    || (a.Announce? && a.passed && a.client in s.clients && s.clients[a.client].user == from && a.partner == to)
  }

  ghost predicate Barred(s: State, acts: seq<Act>, from: UserId, to: UserId)
    decreases |acts|
  {
    acts != [] ==> !LooksUp(s, acts[0], from, to) && Barred(Step(s, acts[0]), acts[1..], from, to)
  }

  /** What a client has been sent from an origin, and what is still aloft to it. */
  ghost function Account(s: State, c: ClientId, origin: UserId): nat
    requires c in s.clients
  {
    CountFrom(s.clients[c].channel.sent, origin) + |Aloft(s, c, origin)|
  }

  lemma SendAccounts(s: State, k: nat, c: ClientId, origin: UserId)
    requires c in s.clients && k in s.flights && s.flights[k].client in s.clients
    ensures var s' := Step(s, Send(k));
            && c in s'.clients && s'.clients[c].user == s.clients[c].user
            && Aloft(s', c, origin) <= Aloft(s, c, origin) && Account(s', c, origin) == Account(s, c, origin)
  {
    var f := s.flights[k];
    CountOneMore(s.clients[f.client].channel.sent, f.event, origin);
    var s' := Step(s, Send(k));
    assert Aloft(s', c, origin) == Aloft(s, c, origin) - {k};
  }

  lemma LookupAccounts(s: State, k: nat, recipient: UserId, e: Event, c: ClientId, origin: UserId)
    requires EntriesRegistered(s) && c in s.clients && !(e.origin == origin && recipient == s.clients[c].user)
    ensures Aloft(LookedUp(s, k, recipient, e), c, origin) == Aloft(s, c, origin)
  {
  }

  lemma ProceedAccounts(s: State, p: ClientId, c: ClientId, origin: UserId)
    requires p in s.clients && c in s.clients
    ensures var s' := Proceeded(s, p);
            && c in s'.clients && s'.clients[c].user == s.clients[c].user
            && Aloft(s', c, origin) == Aloft(s, c, origin) && Account(s', c, origin) == Account(s, c, origin)
  {
    ProceedKeepsChannels(s, p);
    assert c in Proceeded(s, p).clients;
  }

  lemma StepAccounts(s: State, a: Act, c: ClientId, origin: UserId)
    requires Registry(s) && c in s.clients && !LooksUp(s, a, origin, s.clients[c].user)
    ensures var s' := Step(s, a);
            && c in s'.clients && s'.clients[c].user == s.clients[c].user
            && Aloft(s', c, origin) <= Aloft(s, c, origin) && Account(s', c, origin) == Account(s, c, origin)
  {
    match a
    case Send(k) => if k in s.flights && s.flights[k].client in s.clients { SendAccounts(s, k, c, origin); }
    case Proceed(p) => if p in s.clients { ProceedAccounts(s, p, c, origin); }
    case Publish(k, f) =>
      if f.passed { LookupAccounts(s, k, f.recipient, Event(f.origin, OfMessage(f.kind)), c, origin); }
    case Announce(k, p, partner, passed) =>
      if passed && p in s.clients {
        LookupAccounts(s, k, partner, Event(s.clients[p].user, PresenceOnline), c, origin);
        LookupAccounts(s, k, partner, Event(s.clients[p].user, PresenceOffline), c, origin);
      }
    case _ => assert Aloft(Step(s, a), c, origin) == Aloft(s, c, origin);
  }

  /** While nothing from one user to another is looked up any more, as under a block that
      stands, what still arrives at a client is exactly what had been looked up for it
      before: each such event is sent once or is still aloft, and there are no others. */
  lemma {:induction false} OnlyAloftArrives(s: State, acts: seq<Act>, c: ClientId, origin: UserId)
    requires Registry(s) && c in s.clients && Barred(s, acts, origin, s.clients[c].user)
    ensures var t := Run(s, acts);
            && c in t.clients && t.clients[c].user == s.clients[c].user
            && Aloft(t, c, origin) <= Aloft(s, c, origin) && Account(t, c, origin) == Account(s, c, origin)
    decreases |acts|
  {
    if acts != [] {
      RegistryStep(s, acts[0]);
      StepAccounts(s, acts[0], c, origin);
      OnlyAloftArrives(Step(s, acts[0]), acts[1..], c, origin);
    }
  }
}
